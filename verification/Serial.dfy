/** Requests executed one at a time, and what every such execution keeps true of the database. */
module Serial {
  import opened Wrappers
  import opened Domain
  import opened Store
  import opened Audit

  /** One executed request: who issued it, the id and clock reading it used, and the answer it got. */
  datatype Entry = Entry(op: int, call: Call, id: int, now: int, resp: Response)

  function Apply(db: Db, e: Entry): (Db, Response) {
    Exec(db, e.call, e.id, e.now)
  }

  /** The database after executing the entries one by one, starting empty. */
  function After(log: seq<Entry>): Db {
    if log == [] then EMPTY else Apply(After(log[..|log| - 1]), log[|log| - 1]).0
  }

  /** Each entry got a fresh id and exactly the answer the sequential service gives at that point. */
  ghost predicate Legal(log: seq<Entry>) {
    log != [] ==>
      var before, e := log[..|log| - 1], log[|log| - 1];
      Legal(before) && FreshId(After(before), e.call, e.id) && Apply(After(before), e).1 == e.resp
  }

  lemma {:induction false} LegalPrefix(log: seq<Entry>, n: nat)
    requires Legal(log) && n <= |log|
    ensures Legal(log[..n])
    decreases |log|
  {
    if n < |log| {
      LegalPrefix(log[..|log| - 1], n);
      assert log[..|log| - 1][..n] == log[..n];
    } else {
      assert log[..n] == log;
    }
  }

  /** The answer recorded at any position is the one the sequential service gives there. */
  lemma LegalAt(log: seq<Entry>, n: nat)
    requires Legal(log) && n < |log|
    ensures FreshId(After(log[..n]), log[n].call, log[n].id)
    ensures Apply(After(log[..n]), log[n]) == (After(log[..n + 1]), log[n].resp)
  {
    LegalPrefix(log, n + 1);
    assert log[..n + 1][..n] == log[..n];
  }

  // ---------- what never changes back ----------

  /** Rows are only added; roles, team ownership and a task's identity never change. */
  ghost predicate Extends(a: Db, b: Db) {
    && (forall t | t in a.teams :: t in b.teams && b.teams[t] == a.teams[t])
    && (forall k | k in a.members :: k in b.members && b.members[k] == a.members[k])
    && (forall i | i in a.tasks :: i in b.tasks && SameIdentity(a.tasks[i], b.tasks[i]))
  }

  ghost predicate SameIdentity(a: Task, b: Task) {
    a.id == b.id && a.teamId == b.teamId && a.createdBy == b.createdBy && a.createdAt == b.createdAt
  }

  /** The audit rows written between two states lead from the earlier row to the later one, and back. */
  ghost predicate AuditLeads(a: Db, b: Db, i: int) {
    i in a.tasks ==>
      && i in b.tasks
      && HistoryOf(a, i) <= HistoryOf(b, i)
      && var rows := HistoryOf(b, i)[|HistoryOf(a, i)|..];
         Linked(ViewOf(a.tasks[i]), rows)
         && Replay(ViewOf(a.tasks[i]), rows) == ViewOf(b.tasks[i])
         && Undo(ViewOf(b.tasks[i]), rows) == ViewOf(a.tasks[i])
  }

  /** Row ids are the keys the rows are stored under, and memberships belong to existing teams. */
  ghost predicate Keyed(db: Db) {
    && (forall k | k in db.members :: k.0 in db.teams)
    && (forall i | i in db.tasks :: db.tasks[i].id == i && i in db.history && |db.history[i]| > 0)
    && (forall i | i in db.history :: i in db.tasks)
  }

  /** A request leaves alone every task but the one it names or creates. */
  lemma ExecFrame(db: Db, e: Entry, i: int)
    requires Keyed(db) && i in db.tasks && FreshId(db, e.call, e.id)
    requires e.call.UpdateTask? ==> e.call.taskId != i
    ensures i in Apply(db, e).0.tasks && Apply(db, e).0.tasks[i] == db.tasks[i]
    ensures HistoryOf(Apply(db, e).0, i) == HistoryOf(db, i)
  {
  }

  /** What a request does to the task it updates: nothing, or exactly the diff. */
  lemma ExecUpdates(db: Db, e: Entry, i: int) returns (patch: Patch, written: bool)
    requires Keyed(db) && i in db.tasks && e.call.UpdateTask? && e.call.taskId == i
    ensures var after := Apply(db, e).0;
            && i in after.tasks
            && (!written ==> after == db)
            && (written ==>
                 var task, patched := db.tasks[i], Patched(db.tasks[i], patch, e.now);
                 && (task.teamId, e.call.actor) in db.members
                 && AssigneeAllowed(db, task.teamId, patch.assignee)
                 && CanUpdateTask(patch, AccessOf(db.members[(task.teamId, e.call.actor)].role, task, e.call.actor)).Ok?
                 && after == WithTask(db, patched.(updatedAt := e.now), Diff(task, patched, e.call.actor, e.now)))
  {
    match ValidatePatch(e.call.patch)
    case Err(_) => written := false; patch := Patch(None, None, None, Keep);
    case Ok(p) =>
      patch := p;
      written := Apply(db, e).0 != db;
  }

  /** Each kind of committed write, on its own. */
  lemma TeamAdded(db: Db, id: int, team: Team)
    requires Keyed(db) && id !in db.teams
    ensures var after := WithMember(db.(teams := db.teams[id := team]), id, team.createdBy, Membership(Owner, None));
            Keyed(after) && Extends(db, after)
  {
    assert forall u: int :: (id, u) !in db.members;
  }

  lemma MemberAdded(db: Db, team: int, user: int, member: Membership)
    requires Keyed(db) && team in db.teams && (team, user) !in db.members
    ensures Keyed(WithMember(db, team, user, member)) && Extends(db, WithMember(db, team, user, member))
  {
  }

  lemma TaskWritten(db: Db, task: Task, changes: seq<Change>)
    requires Keyed(db) && |HistoryOf(db, task.id) + changes| > 0
    requires task.id in db.tasks ==> SameIdentity(db.tasks[task.id], task)
    ensures Keyed(WithTask(db, task, changes)) && Extends(db, WithTask(db, task, changes))
  {
  }

  /** Requests only ever add, and keep rows under their own ids. */
  lemma ExecExtends(db: Db, e: Entry)
    requires Keyed(db) && FreshId(db, e.call, e.id)
    ensures Keyed(Apply(db, e).0)
    ensures Extends(db, Apply(db, e).0)
  {
    var after := Apply(db, e).0;
    if after != db {
      match e.call {
        case CreateTeam(actor, name, description) =>
          TeamAdded(db, e.id, Team(ValidateTeamName(name).value, description, actor));
        case Invite(actor, team, input, invitee) =>
          var (user, target) := ResolveInvite(db.members[(team, actor)].role, actor, input, invitee).value;
          MemberAdded(db, team, user, Membership(target, Some(actor)));
        case CreateTask(actor, create) =>
          TaskWritten(db, NewTask(create, ValidateCreate(create).value, actor, e.id, e.now),
              [CreatedRow(actor, e.now)]);
        case UpdateTask(actor, i, _) =>
          var patch, written := ExecUpdates(db, e, i);
          var patched := Patched(db.tasks[i], patch, e.now);
          TaskWritten(db, patched.(updatedAt := e.now), Diff(db.tasks[i], patched, actor, e.now));
      }
    }
  }

  lemma AuditStep(db: Db, e: Entry, i: int)
    requires Keyed(db) && FreshId(db, e.call, e.id)
    ensures AuditLeads(db, Apply(db, e).0, i)
  {
    if i in db.tasks {
      var after := Apply(db, e).0;
      if e.call.UpdateTask? && e.call.taskId == i {
        var patch, written := ExecUpdates(db, e, i);
        if written {
          var task := db.tasks[i];
          var patched := Patched(task, patch, e.now);
          var rows := Diff(task, patched, e.call.actor, e.now);
          DiffReplays(task, patched, e.call.actor, e.now);
          UndoReplays(ViewOf(task), rows);
          assert HistoryOf(after, i)[|HistoryOf(db, i)|..] == rows;
          assert ViewOf(after.tasks[i]) == ViewOf(patched);
        }
      } else {
        ExecFrame(db, e, i);
      }
    }
  }

  lemma AuditCompose(a: Db, b: Db, c: Db, i: int)
    requires AuditLeads(a, b, i) && AuditLeads(b, c, i)
    ensures AuditLeads(a, c, i)
  {
    if i in a.tasks {
      var ha, hb, hc := HistoryOf(a, i), HistoryOf(b, i), HistoryOf(c, i);
      assert hc[|ha|..] == hb[|ha|..] + hc[|hb|..];
      ReplayAppend(ViewOf(a.tasks[i]), hb[|ha|..], hc[|hb|..]);
      UndoAppend(ViewOf(c.tasks[i]), hb[|ha|..], hc[|hb|..]);
    }
  }

  lemma {:induction false} AlwaysKeyed(log: seq<Entry>)
    requires Legal(log)
    ensures Keyed(After(log))
  {
    if log != [] {
      AlwaysKeyed(log[..|log| - 1]);
      ExecExtends(After(log[..|log| - 1]), log[|log| - 1]);
    }
  }

  /** The audit log replays between any two points of an execution. */
  lemma {:induction false} AuditReplays(log: seq<Entry>, n: nat, i: int)
    requires Legal(log) && n <= |log|
    ensures AuditLeads(After(log[..n]), After(log), i)
    ensures Extends(After(log[..n]), After(log))
    decreases |log|
  {
    if n < |log| {
      var before, e := log[..|log| - 1], log[|log| - 1];
      AuditReplays(before, n, i);
      assert before[..n] == log[..n];
      AlwaysKeyed(before);
      AuditStep(After(before), e, i);
      AuditCompose(After(log[..n]), After(before), After(log), i);
      ExecExtends(After(before), e);
    } else {
      assert log[..n] == log;
      assert HistoryOf(After(log), i)[|HistoryOf(After(log), i)|..] == [];
    }
  }
}
