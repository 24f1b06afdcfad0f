/** Properties of every database a sequence of requests can produce. */
module Safety {
  import opened Wrappers
  import opened Domain
  import opened Store
  import opened Audit
  import opened Serial

  // ---------- the invite forest ----------

  /** A team has its creator as only owner; admins were invited by the owner, members by an owner or admin. */
  ghost predicate MemberOk(db: Db, team: int, user: int)
    requires (team, user) in db.members
  {
    && team in db.teams
    && var m, owner := db.members[(team, user)], db.teams[team].createdBy;
       && (m.role == Owner <==> user == owner)
       && (m.invitedBy == None <==> user == owner)
       && (m.role == Admin ==> m.invitedBy == Some(owner))
       && (m.role == Member ==>
             (m.invitedBy.Some? && (team, m.invitedBy.value) in db.members
              && db.members[(team, m.invitedBy.value)].role != Member))
  }

  ghost predicate Forest(db: Db) {
    && (forall t | t in db.teams :: (t, db.teams[t].createdBy) in db.members)
    && (forall t, u | (t, u) in db.members :: MemberOk(db, t, u))
  }

  function Inviter(db: Db, team: int, user: int): Option<int> {
    if (team, user) in db.members then db.members[(team, user)].invitedBy else None
  }

  /** Following invited_by from any member ends at the team's creator after at most two steps. */
  lemma InviteChain(db: Db, team: int, user: int)
    requires Forest(db) && (team, user) in db.members
    ensures team in db.teams
    ensures var owner := db.teams[team].createdBy;
            || user == owner
            || Inviter(db, team, user) == Some(owner)
            || (Inviter(db, team, user).Some? && Inviter(db, team, Inviter(db, team, user).value) == Some(owner))
  {
    assert MemberOk(db, team, user);
    var m := db.members[(team, user)];
    if m.role == Member {
      assert MemberOk(db, team, m.invitedBy.value);
    }
  }

  lemma ForestStep(db: Db, e: Entry)
    requires Keyed(db) && Forest(db) && FreshId(db, e.call, e.id)
    ensures Forest(Apply(db, e).0)
  {
    var after := Apply(db, e).0;
    if after != db {
      match e.call {
        case CreateTeam(actor, _, _) =>
          assert forall u: int :: (e.id, u) !in db.members;
          forall t, u | (t, u) in after.members ensures MemberOk(after, t, u) {
            if t != e.id { assert MemberOk(db, t, u); }
          }
        case Invite(actor, team, input, invitee) =>
          assert MemberOk(db, team, actor);
          assert (team, db.teams[team].createdBy) in db.members;
          forall t, u | (t, u) in after.members ensures MemberOk(after, t, u) {
            if (t, u) in db.members { assert MemberOk(db, t, u); }
          }
        case CreateTask(_, _) => SameMembers(db, after);
        case UpdateTask(_, _, _) => SameMembers(db, after);
      }
    }
  }

  lemma SameMembers(db: Db, after: Db)
    requires Forest(db) && after.teams == db.teams && after.members == db.members
    ensures Forest(after)
  {
    forall t, u | (t, u) in after.members ensures MemberOk(after, t, u) {
      assert MemberOk(db, t, u);
    }
  }

  // ---------- creators and assignees are members ----------

  ghost predicate PeopleAreMembers(db: Db) {
    forall i | i in db.tasks ::
      && (db.tasks[i].teamId, db.tasks[i].createdBy) in db.members
      && (db.tasks[i].assigneeId.Some? ==> (db.tasks[i].teamId, db.tasks[i].assigneeId.value) in db.members)
  }

  lemma PeopleStep(db: Db, e: Entry)
    requires Keyed(db) && PeopleAreMembers(db) && FreshId(db, e.call, e.id)
    ensures PeopleAreMembers(Apply(db, e).0)
  {
    var after := Apply(db, e).0;
    ExecExtends(db, e);
    forall i | i in after.tasks
      ensures (after.tasks[i].teamId, after.tasks[i].createdBy) in after.members
      ensures after.tasks[i].assigneeId.Some? ==>
              (after.tasks[i].teamId, after.tasks[i].assigneeId.value) in after.members
    {
      if i in db.tasks {
        if e.call.UpdateTask? && e.call.taskId == i {
          var patch, written := ExecUpdates(db, e, i);
        } else {
          ExecFrame(db, e, i);
        }
      } else {
        assert e.call.CreateTask? && i == e.id;
      }
    }
  }

  // ---------- completed_at ----------

  /** The latest audit row about the status, if any. */
  function LastStatus(rows: seq<Change>): Option<Change> {
    if rows == [] then None
    else if rows[|rows| - 1].field == Some(StatusField) then Some(rows[|rows| - 1])
    else LastStatus(rows[..|rows| - 1])
  }

  lemma {:induction false} LastStatusAppend(a: seq<Change>, b: seq<Change>)
    ensures LastStatus(a + b) == if LastStatus(b).Some? then LastStatus(b) else LastStatus(a)
    decreases |b|
  {
    if b == [] {
      assert a + b == a;
    } else {
      assert (a + b)[..|a + b| - 1] == a + b[..|b| - 1];
      LastStatusAppend(a, b[..|b| - 1]);
    }
  }

  /** completed_at is set exactly for done tasks, to the time of the last move into done
      (the creation time when the status never changed). */
  ghost predicate CompletedOk(task: Task, rows: seq<Change>) {
    match LastStatus(rows)
    case None => task.completedAt == if task.status == Done then Some(task.createdAt) else None
    case Some(c) =>
      && c.newValue == Some(StatusText(task.status))
      && task.completedAt == if task.status == Done then Some(c.at) else None
  }

  lemma LastStatusOfDiff(before: Task, after: Task, actor: int, now: int)
    ensures LastStatus(Diff(before, after, actor, now))
         == if before.status != after.status then Some(RowFor(before, after, StatusField, actor, now)[0]) else None
  {
    var a, b := RowFor(before, after, TitleField, actor, now), RowFor(before, after, DescriptionField, actor, now);
    var c, d := RowFor(before, after, StatusField, actor, now), RowFor(before, after, AssigneeField, actor, now);
    LastStatusAppend(a, b);
    LastStatusAppend(a + b, c);
    LastStatusAppend(a + b + c, d);
  }

  ghost predicate CompletionTimes(db: Db) {
    forall i | i in db.tasks :: CompletedOk(db.tasks[i], HistoryOf(db, i))
  }

  lemma CompletionStep(db: Db, e: Entry)
    requires Keyed(db) && CompletionTimes(db) && FreshId(db, e.call, e.id)
    ensures CompletionTimes(Apply(db, e).0)
  {
    var after := Apply(db, e).0;
    forall i | i in after.tasks ensures CompletedOk(after.tasks[i], HistoryOf(after, i)) {
      if i in db.tasks {
        if e.call.UpdateTask? && e.call.taskId == i {
          var patch, written := ExecUpdates(db, e, i);
          if written {
            var patched := Patched(db.tasks[i], patch, e.now);
            LastStatusOfDiff(db.tasks[i], patched, e.call.actor, e.now);
            LastStatusAppend(HistoryOf(db, i), Diff(db.tasks[i], patched, e.call.actor, e.now));
          }
        } else {
          ExecFrame(db, e, i);
        }
      } else {
        assert e.call.CreateTask? && i == e.id;
        assert HistoryOf(after, i) == [CreatedRow(e.call.actor, e.now)];
      }
    }
  }

  // ---------- who wrote the audit rows ----------

  ghost predicate Allowed(role: Role, task: Task, assigneeThen: Option<string>, c: Change) {
    || role != Member
    || c.changedBy == task.createdBy
    || (assigneeThen == AssigneeText(Some(c.changedBy)) && c.field in {Some(StatusField), Some(DescriptionField)})
  }

  /** The author of row n was, when it was written, a member entitled to that very change; the assignee of
      that moment is read off the current row by undoing the rows from n on. */
  ghost predicate RowAuthorized(db: Db, i: int, n: nat)
    requires i in db.tasks && n < |HistoryOf(db, i)|
  {
    var task, c := db.tasks[i], HistoryOf(db, i)[n];
    && c.action == Updated
    && (task.teamId, c.changedBy) in db.members
    && Allowed(db.members[(task.teamId, c.changedBy)].role, task, Undo(ViewOf(task), HistoryOf(db, i)[n..]).assignee, c)
  }

  /** The log of a task: one row for its creation by its creator, then authorized updates only. */
  ghost predicate LogAuthorized(db: Db, i: int)
    requires i in db.tasks
  {
    var rows := HistoryOf(db, i);
    && |rows| > 0 && rows[0] == CreatedRow(db.tasks[i].createdBy, db.tasks[i].createdAt)
    && forall n | 0 < n < |rows| :: RowAuthorized(db, i, n)
  }

  ghost predicate LogsAuthorized(db: Db) {
    forall i | i in db.tasks :: LogAuthorized(db, i)
  }

  lemma {:induction false} Untouched(v: View, rows: seq<Change>, f: Field)
    requires forall k | 0 <= k < |rows| :: rows[k].field != Some(f)
    ensures Replay(v, rows).Get(f) == v.Get(f)
    decreases |rows|
  {
    if rows != [] {
      Untouched(Redo(v, rows[0]), rows[1..], f);
    }
  }

  /** Inside one update the assignee row comes last, so before each of its rows the assignee is still the old one. */
  lemma AssigneeDuringUpdate(before: Task, after: Task, actor: int, now: int, m: nat)
    requires m < |Diff(before, after, actor, now)|
    ensures Undo(ViewOf(after), Diff(before, after, actor, now)[m..]).assignee == AssigneeText(before.assigneeId)
  {
    var rows := Diff(before, after, actor, now);
    DiffReplays(before, after, actor, now);
    assert rows == rows[..m] + rows[m..];
    ReplayAppend(ViewOf(before), rows[..m], rows[m..]);
    UndoReplays(Replay(ViewOf(before), rows[..m]), rows[m..]);
    Untouched(ViewOf(before), rows[..m], AssigneeField);
  }

  /** The database after an update that wrote the diff to the patched row. */
  function Written(db: Db, i: int, patched: Task, actor: int, now: int): Db
    requires i in db.tasks
  {
    WithTask(db, patched.(updatedAt := now), Diff(db.tasks[i], patched, actor, now))
  }

  lemma OldRowStays(db: Db, i: int, patched: Task, actor: int, now: int, n: nat)
    requires i in db.tasks && SameIdentity(db.tasks[i], patched) && patched.id == i
    requires n < |HistoryOf(db, i)| && RowAuthorized(db, i, n)
    ensures n < |HistoryOf(Written(db, i, patched, actor, now), i)|
    ensures RowAuthorized(Written(db, i, patched, actor, now), i, n)
  {
    var past, rows := HistoryOf(db, i), Diff(db.tasks[i], patched, actor, now);
    DiffReplays(db.tasks[i], patched, actor, now);
    UndoReplays(ViewOf(db.tasks[i]), rows);
    assert (past + rows)[n..] == past[n..] + rows;
    UndoAppend(ViewOf(patched), past[n..], rows);
    assert ViewOf(patched.(updatedAt := now)) == ViewOf(patched);
  }

  lemma NewRowAuthorized(db: Db, i: int, patch: Patch, actor: int, now: int, m: nat)
    requires Keyed(db) && i in db.tasks
    requires (db.tasks[i].teamId, actor) in db.members
    requires CanUpdateTask(patch, AccessOf(db.members[(db.tasks[i].teamId, actor)].role, db.tasks[i], actor)).Ok?
    requires m < |Diff(db.tasks[i], Patched(db.tasks[i], patch, now), actor, now)|
    ensures var after := Written(db, i, Patched(db.tasks[i], patch, now), actor, now);
            RowAuthorized(after, i, |HistoryOf(db, i)| + m)
  {
    var patched := Patched(db.tasks[i], patch, now);
    var past, rows := HistoryOf(db, i), Diff(db.tasks[i], patched, actor, now);
    AssigneeDuringUpdate(db.tasks[i], patched, actor, now, m);
    DiffRows(db.tasks[i], patched, actor, now);
    assert rows[m] in rows;
    assert (past + rows)[|past| + m..] == rows[m..];
    assert ViewOf(patched.(updatedAt := now)) == ViewOf(patched);
  }

  lemma UpdateAuthorized(db: Db, e: Entry, i: int)
    requires Keyed(db) && i in db.tasks && LogAuthorized(db, i)
    requires e.call.UpdateTask? && e.call.taskId == i
    ensures i in Apply(db, e).0.tasks && LogAuthorized(Apply(db, e).0, i)
  {
    var patch, written := ExecUpdates(db, e, i);
    if written {
      var past, patched := HistoryOf(db, i), Patched(db.tasks[i], patch, e.now);
      var after := Written(db, i, patched, e.call.actor, e.now);
      forall n | 0 < n < |HistoryOf(after, i)| ensures RowAuthorized(after, i, n) {
        if n < |past| {
          assert RowAuthorized(db, i, n);
          OldRowStays(db, i, patched, e.call.actor, e.now, n);
        } else {
          NewRowAuthorized(db, i, patch, e.call.actor, e.now, n - |past|);
        }
      }
    }
  }

  lemma LogsStep(db: Db, e: Entry)
    requires Keyed(db) && LogsAuthorized(db) && FreshId(db, e.call, e.id)
    ensures LogsAuthorized(Apply(db, e).0)
  {
    var after := Apply(db, e).0;
    ExecExtends(db, e);
    forall i | i in after.tasks ensures LogAuthorized(after, i) {
      if i in db.tasks {
        assert LogAuthorized(db, i);
        if e.call.UpdateTask? && e.call.taskId == i {
          UpdateAuthorized(db, e, i);
        } else {
          ExecFrame(db, e, i);
          assert forall n | 0 < n < |HistoryOf(db, i)| :: RowAuthorized(db, i, n) ==> RowAuthorized(after, i, n);
        }
      } else {
        assert e.call.CreateTask? && i == e.id;
        assert HistoryOf(after, i) == [CreatedRow(e.call.actor, e.now)];
      }
    }
  }

  // ---------- all of it, always ----------

  ghost predicate Safe(db: Db) {
    Keyed(db) && Forest(db) && PeopleAreMembers(db) && CompletionTimes(db) && LogsAuthorized(db)
  }

  lemma {:induction false} AlwaysSafe(log: seq<Entry>)
    requires Legal(log)
    ensures Safe(After(log))
  {
    if log != [] {
      var db, e := After(log[..|log| - 1]), log[|log| - 1];
      AlwaysSafe(log[..|log| - 1]);
      ExecExtends(db, e);
      ForestStep(db, e);
      PeopleStep(db, e);
      CompletionStep(db, e);
      LogsStep(db, e);
    }
  }
}
