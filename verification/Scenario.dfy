/** Building blocks for concrete runs of the service and its cache: whole requests, undisturbed from start to end. */
module Scenario {
  import opened Wrappers
  import opened Domain
  import opened Store
  import opened Serial
  import opened Listing
  import opened Concurrent
  import opened CacheProtocol
  import CalmRuns
  import Text

  const TTL := 300_000_000

  /** No failure: requests are not aborted, Redis answers, and nothing is lost. */
  predicate Smooth(a: Act) {
    (a.Core? ==> a.incrOk && !a.event.Abort?) && (a.Advance? ==> a.ok) && !a.Evict? && !a.Forget?
  }

  /** A run without failures and its last state; if `calm`, also one that keeps to the fill condition of CalmRuns. */
  ghost predicate Reaches(systems: seq<System>, actions: seq<Act>, y: System, calm: bool) {
    && IsSystemRun(systems, actions, TTL) && systems[|actions|] == y
    && (forall a | a in actions :: Smooth(a))
    && (calm ==> CalmRuns.CalmRun(systems, actions, TTL))
  }

  lemma Then(systems: seq<System>, actions: seq<Act>, y: System, calm: bool, a: Act)
    returns (more: seq<System>, acts: seq<Act>)
    requires Reaches(systems, actions, y, calm) && Possible(y, a) && Smooth(a) && (calm ==> CalmRuns.CalmAct(y, a))
    ensures Reaches(more, acts, Do(y, a, TTL), calm) && systems <= more
  {
    more, acts := systems + [Do(y, a, TTL)], actions + [a];
  }

  lemma Start()
    ensures Reaches([START], [], START, true)
  {
  }

  /** A step of the core that invalidates nothing. */
  lemma CoreThen(systems: seq<System>, actions: seq<Act>, y: System, calm: bool, e: Event)
    returns (more: seq<System>, acts: seq<Act>, z: System)
    requires Reaches(systems, actions, y, calm) && Enabled(y.core, e) && !e.Abort? && Invalidates(y.core, e).None?
    ensures Reaches(more, acts, z, calm) && systems <= more && z == y.(core := Next(y.core, e), step := y.step + 1)
  {
    more, acts := Then(systems, actions, y, calm, Core(e, true));
    z := Do(y, Core(e, true), TTL);
  }

  // ---------- creating a team ----------

  const ACTOR := 7
  const TEAM_CALL := CreateTeam(ACTOR, "t", "")

  lemma Trims()
    ensures ValidateTeamName("t") == Ok("t")
    ensures ValidateCreate(TaskOf(1)) == Ok(("a", Todo))
  {
    assert Text.TrimSpace("t") == "t" && Text.TrimSpace("a") == "a";
  }

  lemma TeamSteps(s: State, o: int)
    requires o in s.ops && s.ops[o].call == TEAM_CALL
    ensures s.ops[o].pc.Begun? ==> StepOp(s, o) == Put(s, o, TeamInserted(s.nextTeam)).(nextTeam := s.nextTeam + 1)
    ensures s.ops[o].pc.TeamInserted? ==>
              var id := s.ops[o].pc.id;
              StepOp(s, o) == Put(Logged(s, o, id, s.clock, Ok(TeamReply(id))), o,
                  Finishing(Ok(TeamReply(id)), |s.log|))
                                .(db := ExecCreateTeam(s.db, ACTOR, "t", "", id).0)
  {
    Trims();
  }

  /** From the very start: team 1, owned by the actor. */
  lemma TeamCreated() returns (systems: seq<System>, actions: seq<Act>, y: System)
    ensures Reaches(systems, actions, y, true)
    ensures y.core.db.tasks == map[] && y.core.db.history == map[]
    ensures (1, ACTOR) in y.core.db.members && y.core.db.members[(1, ACTOR)].role == Owner
    ensures y.core.ops.Keys == {0} && |y.core.log| == 1 && y.core.log[0].call == TEAM_CALL
    ensures y.core.nextTask == 1 && y.core.clock == 0 && y.core.locks == map[]
    ensures y.readers == map[] && y.cache == map[] && y.versions == map[] && y.incrs == []
  {
    Trims();
    Start();
    var s := INIT;
    systems, actions, y := CoreThen([START], [], START, true, Invoke(0, TEAM_CALL));
    TeamSteps(y.core, 0);
    systems, actions, y := CoreThen(systems, actions, y, true, Step(0));
    TeamSteps(y.core, 0);
    systems, actions, y := CoreThen(systems, actions, y, true, Step(0));
    systems, actions, y := CoreThen(systems, actions, y, true, Step(0));
  }

  // ---------- creating a task ----------

  function TaskOf(team: int): CreateInput {
    CreateInput(team, "a", "", "", None)
  }

  function Fresh(id: int, now: int): Task {
    NewTask(TaskOf(1), ("a", Todo), ACTOR, id, now)
  }

  const TASK_CALL := CreateTask(ACTOR, TaskOf(1))

  lemma CreateSteps(s: State, o: int)
    requires o in s.ops && s.ops[o].call == TASK_CALL && (1, ACTOR) in s.db.members
    ensures s.ops[o].pc.Begun? ==> StepOp(s, o) == Put(s, o, CreateRoled)
    ensures s.ops[o].pc.CreateRoled? ==> StepOp(s, o) == Put(s, o, CreateReady)
    ensures s.ops[o].pc.CreateReady? ==>
              StepOp(s, o) == Put(s, o, CreateInserted(s.nextTask, s.clock)).(nextTask := s.nextTask + 1)
    ensures s.ops[o].pc.CreateInserted? ==>
              StepOp(s, o) ==
              Put(s, o, CreateLogged(s.ops[o].pc.id, s.ops[o].pc.now, s.nextRow)).(nextRow := s.nextRow + 1)
  {
    Trims();
  }

  lemma CreateCommit(s: State, o: int)
    requires o in s.ops && s.ops[o].call == TASK_CALL && s.ops[o].pc.CreateLogged?
    ensures var CreateLogged(id, now, rowId) := s.ops[o].pc;
            var resp := Ok(TaskReply(Fresh(id, now)));
            StepOp(s, o) == Put(Logged(s, o, id, now, resp), o, Finishing(resp, |s.log|))
              .(db := WithTask(s.db, Fresh(id, now), [CreatedRow(ACTOR, now)]), rowIds := s.rowIds[id := [rowId]])
  {
    Trims();
  }

  /** Everything outside the core is as before, and so are the core's members, clock and locks. */
  ghost predicate Aside(y: System, z: System) {
    && z.readers == y.readers && z.cache == y.cache
    && z.core.db.members == y.core.db.members && z.core.clock == y.core.clock && z.core.locks == y.core.locks
  }

  /** Request o has committed as the next entry of the log, and not yet invalidated. */
  ghost predicate Commits(y: System, z: System, o: int, call: Call, task: Task) {
    && Aside(y, z) && z.versions == y.versions && z.incrs == y.incrs
    && z.core.ops.Keys == y.core.ops.Keys + {o}
    && z.core.ops[o].call == call && z.core.ops[o].pc == Finishing(Ok(TaskReply(task)), |y.core.log|)
    && |z.core.log| == |y.core.log| + 1 && z.core.log[..|y.core.log|] == y.core.log &&
       z.core.log[|y.core.log|].call == call
    && z.core.db.tasks == y.core.db.tasks[task.id := task]
  }

  /** Request o has arrived and committed nothing yet. */
  ghost predicate Underway(y: System, z: System, o: int, call: Call) {
    && Aside(y, z) && z.versions == y.versions && z.incrs == y.incrs
    && z.core.ops.Keys == y.core.ops.Keys + {o} && z.core.ops[o].call == call
    && z.core.db == y.core.db && z.core.log == y.core.log
  }

  lemma TaskArrives(s0: seq<System>, a0: seq<Act>, y: System, calm: bool, o: int)
    returns (systems: seq<System>, actions: seq<Act>, z: System)
    requires Reaches(s0, a0, y, calm) && o !in y.core.ops && (1, ACTOR) in y.core.db.members
    ensures Reaches(systems, actions, z, calm) && s0 <= systems
    ensures Underway(y, z, o, TASK_CALL) && z.core.ops[o].pc.CreateReady? && z.core.nextTask == y.core.nextTask
  {
    systems, actions, z := CoreThen(s0, a0, y, calm, Invoke(o, TASK_CALL));
    CreateSteps(z.core, o);
    systems, actions, z := CoreThen(systems, actions, z, calm, Step(o));
    CreateSteps(z.core, o);
    systems, actions, z := CoreThen(systems, actions, z, calm, Step(o));
  }

  lemma TaskInserted(s0: seq<System>, a0: seq<Act>, y: System, calm: bool, o: int)
    returns (systems: seq<System>, actions: seq<Act>, z: System)
    requires Reaches(s0, a0, y, calm) && o in y.core.ops && y.core.ops[o].call == TASK_CALL &&
             (1, ACTOR) in y.core.db.members
    requires y.core.ops[o].pc.CreateReady?
    ensures Reaches(systems, actions, z, calm) && s0 <= systems
    ensures Underway(y, z, o, TASK_CALL) && z.core.nextTask == y.core.nextTask + 1
    ensures z.core.ops[o].pc.CreateLogged? && z.core.ops[o].pc.id == y.core.nextTask &&
            z.core.ops[o].pc.now == y.core.clock
  {
    CreateSteps(y.core, o);
    systems, actions, z := CoreThen(s0, a0, y, calm, Step(o));
    CreateSteps(z.core, o);
    systems, actions, z := CoreThen(systems, actions, z, calm, Step(o));
  }

  lemma TaskCommitted(s0: seq<System>, a0: seq<Act>, y: System, calm: bool, o: int)
    returns (systems: seq<System>, actions: seq<Act>, z: System)
    requires Reaches(s0, a0, y, calm) && o in y.core.ops && y.core.ops[o].call == TASK_CALL &&
             y.core.ops[o].pc.CreateLogged?
    ensures Reaches(systems, actions, z, calm) && s0 <= systems
    ensures Commits(y, z, o, TASK_CALL, Fresh(y.core.ops[o].pc.id, y.core.ops[o].pc.now)) &&
            z.core.nextTask == y.core.nextTask
  {
    CreateCommit(y.core, o);
    systems, actions, z := CoreThen(s0, a0, y, calm, Step(o));
  }

  lemma TaskCreated(s0: seq<System>, a0: seq<Act>, y: System, calm: bool, o: int)
    returns (systems: seq<System>, actions: seq<Act>, z: System)
    requires Reaches(s0, a0, y, calm) && o !in y.core.ops && (1, ACTOR) in y.core.db.members
    ensures Reaches(systems, actions, z, calm) && s0 <= systems
    ensures Commits(y, z, o, TASK_CALL, Fresh(y.core.nextTask, y.core.clock)) && z.core.nextTask == y.core.nextTask + 1
  {
    systems, actions, z := TaskArrives(s0, a0, y, calm, o);
    systems, actions, z := TaskInserted(systems, actions, z, calm, o);
    systems, actions, z := TaskCommitted(systems, actions, z, calm, o);
  }

  // ---------- updating a task ----------

  const DONE := PatchInput(None, None, Some("done"), Keep)

  function Finish(task: Task, now: int): Task {
    task.(status := Done, completedAt := Some(now), updatedAt := now)
  }

  function DoneCall(u: int): Call {
    UpdateTask(ACTOR, u, DONE)
  }

  lemma DonePatch(row: Task, now: int)
    requires row.status == Todo
    ensures ValidatePatch(DONE) == Ok(Patch(None, None, Some(Done), Keep))
    ensures var patched := Patched(row, Patch(None, None, Some(Done), Keep), now);
            |Diff(row, patched, ACTOR, now)| == 1 && patched.(updatedAt := now) == Finish(row, now)
  {
    assert StatusOf("done") == Some(Done);
  }

  lemma UpdateReads(s: State, o: int, u: int)
    requires o in s.ops && s.ops[o].call == DoneCall(u) && u in s.db.tasks
    requires s.db.tasks[u].teamId == 1 && s.db.tasks[u].status == Todo && (1, ACTOR) in s.db.members
    ensures var row, role := s.db.tasks[u], s.db.members[(1, ACTOR)].role;
            && (s.ops[o].pc == Begun ==> StepOp(s, o) == Put(s, o, UpdateGot(row)))
            && (s.ops[o].pc == UpdateGot(row) ==> StepOp(s, o) == Put(s, o, UpdateRoled(row, role)))
            && (s.ops[o].pc == UpdateRoled(row, role) ==> StepOp(s, o) == Put(s, o, UpdateReady(row, role)))
            && (s.ops[o].pc == UpdateReady(row, role) ==>
               StepOp(s, o) == Put(s, o, UpdateLocked(role, row)).(locks := s.locks[u := o]))
  {
    DonePatch(s.db.tasks[u], s.clock);
  }

  lemma UpdateStarts(s: State, o: int, u: int)
    requires o in s.ops && s.ops[o].call == DoneCall(u) && s.ops[o].pc.UpdateLocked?
    requires s.ops[o].pc.role == Owner && s.ops[o].pc.row.status == Todo
    ensures StepOp(s, o) == Put(s, o, UpdateWriting(Owner, s.ops[o].pc.row, s.clock, []))
  {
    DonePatch(s.ops[o].pc.row, s.clock);
    assert StepUpdate(s, o) == Authorize(s, o, Patch(None, None, Some(Done), Keep));
  }

  lemma UpdateInserts(s: State, o: int, u: int)
    requires o in s.ops && s.ops[o].call == DoneCall(u) && s.ops[o].pc.UpdateWriting?
    requires s.ops[o].pc.row.status == Todo && s.ops[o].pc.ids == []
    ensures StepOp(s, o) == Put(s, o, UpdateWriting(s.ops[o].pc.role, s.ops[o].pc.row, s.ops[o].pc.now, [s.nextRow]))
                              .(nextRow := s.nextRow + 1)
  {
    DonePatch(s.ops[o].pc.row, s.ops[o].pc.now);
    assert StepUpdate(s, o) == Write(s, o, Patch(None, None, Some(Done), Keep));
    assert [] + [s.nextRow] == [s.nextRow];
  }

  lemma UpdateCommits(s: State, o: int, u: int)
    requires o in s.ops && s.ops[o].call == DoneCall(u) && s.ops[o].pc.UpdateWriting?
    requires s.ops[o].pc.row.status == Todo && s.ops[o].pc.row.id == u && |s.ops[o].pc.ids| == 1
    ensures var z, after := StepOp(s, o), Finish(s.ops[o].pc.row, s.ops[o].pc.now);
            && z.ops == s.ops[o := s.ops[o].(pc := Finishing(Ok(TaskReply(after)), |s.log|))]
            && z.log == s.log + [Entry(o, s.ops[o].call, 0, s.ops[o].pc.now, Ok(TaskReply(after)))]
            && z.locks == s.locks - {u} && z.clock == s.clock && z.nextTask == s.nextTask
            && z.db.members == s.db.members && z.db.tasks == s.db.tasks[u := after]
  {
    DonePatch(s.ops[o].pc.row, s.ops[o].pc.now);
    assert StepUpdate(s, o) == Write(s, o, Patch(None, None, Some(Done), Keep));
  }

  /** The owner marks a task of team 1 done. */
  ghost predicate Finishable(s: State, u: int) {
    && u in s.db.tasks && s.db.tasks[u].id == u && s.db.tasks[u].teamId == 1 && s.db.tasks[u].status == Todo &&
       u !in s.locks
    && (1, ACTOR) in s.db.members && s.db.members[(1, ACTOR)].role == Owner
  }

  lemma UpdateArrives(s0: seq<System>, a0: seq<Act>, y: System, calm: bool, o: int, u: int)
    returns (systems: seq<System>, actions: seq<Act>, z: System)
    requires Reaches(s0, a0, y, calm) && o !in y.core.ops && Finishable(y.core, u)
    ensures Reaches(systems, actions, z, calm) && s0 <= systems
    ensures Underway(y, z, o, DoneCall(u)) && z.core.ops[o].pc == UpdateGot(y.core.db.tasks[u])
  {
    systems, actions, z := CoreThen(s0, a0, y, calm, Invoke(o, DoneCall(u)));
    UpdateReads(z.core, o, u);
    systems, actions, z := CoreThen(systems, actions, z, calm, Step(o));
  }

  lemma UpdateChecks(s0: seq<System>, a0: seq<Act>, y: System, calm: bool, o: int, u: int)
    returns (systems: seq<System>, actions: seq<Act>, z: System)
    requires Reaches(s0, a0, y, calm) && o in y.core.ops && y.core.ops[o].call == DoneCall(u) && Finishable(y.core, u)
    requires y.core.ops[o].pc == UpdateGot(y.core.db.tasks[u])
    ensures Reaches(systems, actions, z, calm) && s0 <= systems
    ensures Underway(y, z, o, DoneCall(u)) && z.core.ops[o].pc == UpdateReady(y.core.db.tasks[u], Owner)
  {
    UpdateReads(y.core, o, u);
    systems, actions, z := CoreThen(s0, a0, y, calm, Step(o));
    UpdateReads(z.core, o, u);
    systems, actions, z := CoreThen(systems, actions, z, calm, Step(o));
  }

  lemma UpdateLocksRow(s0: seq<System>, a0: seq<Act>, y: System, calm: bool, o: int, u: int)
    returns (systems: seq<System>, actions: seq<Act>, z: System)
    requires Reaches(s0, a0, y, calm) && o in y.core.ops && y.core.ops[o].call == DoneCall(u) && Finishable(y.core, u)
    requires y.core.ops[o].pc == UpdateReady(y.core.db.tasks[u], Owner)
    ensures Reaches(systems, actions, z, calm) && s0 <= systems
    ensures z == y.(step := z.step, core := y.core.(locks := y.core.locks[u := o], ops := z.core.ops))
    ensures z.core.ops.Keys == y.core.ops.Keys && z.core.ops[o].call == DoneCall(u)
    ensures z.core.ops[o].pc == UpdateWriting(Owner, y.core.db.tasks[u], y.core.clock, [])
  {
    UpdateReads(y.core, o, u);
    systems, actions, z := CoreThen(s0, a0, y, calm, Step(o));
    UpdateStarts(z.core, o, u);
    systems, actions, z := CoreThen(systems, actions, z, calm, Step(o));
  }

  lemma UpdateEnds(s0: seq<System>, a0: seq<Act>, y: System, calm: bool, o: int, u: int, row: Task)
    returns (systems: seq<System>, actions: seq<Act>, z: System)
    requires Reaches(s0, a0, y, calm) && o in y.core.ops && y.core.ops[o].call == DoneCall(u)
    requires row.id == u && row.status == Todo && y.core.ops[o].pc == UpdateWriting(Owner, row, y.core.clock, [])
    ensures Reaches(systems, actions, z, calm) && s0 <= systems
    ensures Commits(y.(core := y.core.(locks := y.core.locks - {u})), z, o, DoneCall(u), Finish(row, y.core.clock))
  {
    UpdateInserts(y.core, o, u);
    systems, actions, z := CoreThen(s0, a0, y, calm, Step(o));
    UpdateCommits(z.core, o, u);
    systems, actions, z := CoreThen(systems, actions, z, calm, Step(o));
  }

  lemma UpdatePrepared(s0: seq<System>, a0: seq<Act>, y: System, calm: bool, o: int, u: int)
    returns (systems: seq<System>, actions: seq<Act>, z: System)
    requires Reaches(s0, a0, y, calm) && o !in y.core.ops && Finishable(y.core, u)
    ensures Reaches(systems, actions, z, calm) && s0 <= systems
    ensures Underway(y, z, o, DoneCall(u)) && z.core.ops[o].pc == UpdateReady(y.core.db.tasks[u], Owner)
  {
    systems, actions, z := UpdateArrives(s0, a0, y, calm, o, u);
    systems, actions, z := UpdateChecks(systems, actions, z, calm, o, u);
  }

  lemma UpdateWritten(s0: seq<System>, a0: seq<Act>, y: System, calm: bool, o: int, u: int)
    returns (systems: seq<System>, actions: seq<Act>, z: System)
    requires Reaches(s0, a0, y, calm) && o in y.core.ops && y.core.ops[o].call == DoneCall(u) && Finishable(y.core, u)
    requires y.core.ops[o].pc == UpdateReady(y.core.db.tasks[u], Owner)
    ensures Reaches(systems, actions, z, calm) && s0 <= systems
    ensures Commits(y, z, o, DoneCall(u), Finish(y.core.db.tasks[u], y.core.clock))
  {
    systems, actions, z := UpdateLocksRow(s0, a0, y, calm, o, u);
    systems, actions, z := UpdateEnds(systems, actions, z, calm, o, u, y.core.db.tasks[u]);
    assert y.core.locks[u := o] - {u} == y.core.locks;
  }

  lemma TaskFinished(s0: seq<System>, a0: seq<Act>, y: System, calm: bool, o: int, u: int)
    returns (systems: seq<System>, actions: seq<Act>, z: System)
    requires Reaches(s0, a0, y, calm) && o !in y.core.ops && Finishable(y.core, u)
    ensures Reaches(systems, actions, z, calm) && s0 <= systems
    ensures Commits(y, z, o, DoneCall(u), Finish(y.core.db.tasks[u], y.core.clock))
  {
    systems, actions, z := UpdatePrepared(s0, a0, y, calm, o, u);
    systems, actions, z := UpdateWritten(systems, actions, z, calm, o, u);
  }

  // ---------- answering ----------

  /** The request raises its team's version and is answered. */
  lemma TaskAnswered(s0: seq<System>, a0: seq<Act>, y: System, calm: bool, o: int, task: Task, at: nat)
    returns (systems: seq<System>, actions: seq<Act>, z: System)
    requires Reaches(s0, a0, y, calm) && o in y.core.ops && y.core.ops[o].pc == Finishing(Ok(TaskReply(task)), at)
    ensures Reaches(systems, actions, z, calm) && s0 <= systems
    ensures Aside(y, z) && z.core.db == y.core.db && z.core.log == y.core.log && z.core.nextTask == y.core.nextTask
    ensures z.core.ops.Keys == y.core.ops.Keys && z.core.ops[o].call == y.core.ops[o].call
    ensures z.core.ops[o].pc == Returned(Ok(TaskReply(task)), Some(at))
    ensures VersionOf(z, task.teamId) == VersionOf(y, task.teamId) + 1
    ensures z.incrs == y.incrs + [Incr(o, task.teamId, VersionOf(z, task.teamId))]
  {
    var a := Core(Step(o), true);
    systems, actions := Then(s0, a0, y, calm, a);
    z := Do(y, a, TTL);
  }

  // ---------- listing ----------

  /** Only reader r and the cache have changed. */
  ghost predicate Reading(y: System, z: System, r: int) {
    && z.core == y.core && z.versions == y.versions && z.incrs == y.incrs
    && z.readers.Keys == y.readers.Keys + {r} && (forall k | k in y.readers && k != r :: z.readers[k] == y.readers[k])
  }

  lemma ReadThen(systems: seq<System>, actions: seq<Act>, y: System, calm: bool, a: Act)
    returns (more: seq<System>, acts: seq<Act>, z: System)
    requires Reaches(systems, actions, y, calm) && Possible(y, a) && Smooth(a) && (calm ==> CalmRuns.CalmAct(y, a))
    ensures Reaches(more, acts, z, calm) && systems <= more && z == Do(y, a, TTL)
  {
    more, acts := Then(systems, actions, y, calm, a);
    z := Do(y, a, TTL);
  }

  ghost predicate MayList(y: System, f: Filters) {
    && f.IsNormalized() && f.Normalized() == f && f.Valid() && OffsetOk(f) && (f.teamId, ACTOR) in y.core.db.members
  }

  lemma Asks(s0: seq<System>, a0: seq<Act>, y: System, calm: bool, r: int, f: Filters)
    returns (systems: seq<System>, actions: seq<Act>, z: System)
    requires Reaches(s0, a0, y, calm) && r !in y.readers && MayList(y, f)
    ensures Reaches(systems, actions, z, calm) && s0 <= systems && Reading(y, z, r) && z.cache == y.cache
    ensures z.readers[r] == Reader(f, y.core.clock, |y.incrs|, Versioned(VersionOf(y, f.teamId), true, |y.incrs|))
  {
    systems, actions, z := ReadThen(s0, a0, y, calm, Ask(r, ACTOR, f));
    systems, actions, z := ReadThen(systems, actions, z, calm, Advance(r, true));
  }

  /** A List that finds nothing cached has read the database. */
  lemma Reads(s0: seq<System>, a0: seq<Act>, y: System, calm: bool, r: int, f: Filters)
    returns (systems: seq<System>, actions: seq<Act>, z: System)
    requires Reaches(s0, a0, y, calm) && r !in y.readers && MayList(y, f) && Key(VersionOf(y, f.teamId), f) !in y.cache
    ensures Reaches(systems, actions, z, calm) && s0 <= systems && Reading(y, z, r) && z.cache == y.cache
    ensures z.readers[r].filters == f && z.readers[r].pc.Fetched?
    ensures var fetch := z.readers[r].pc.fetch;
            && fetch.page == Query(y.core.db.tasks, f) && fetch.marks == |y.incrs| && fetch.logLength == |y.core.log|
            && fetch.readStep < |systems| && systems[fetch.readStep].core == y.core
            && fetch.startedAt == y.core.clock
  {
    systems, actions, z := Asks(s0, a0, y, calm, r, f);
    systems, actions, z := ReadThen(systems, actions, z, calm, Advance(r, true));
    ghost var reading := z;
    StepIsIndex(systems, actions, z, calm);
    systems, actions, z := ReadThen(systems, actions, z, calm, Advance(r, true));
    assert systems[reading.step] == reading;
  }

  lemma StepIsIndex(systems: seq<System>, actions: seq<Act>, y: System, calm: bool)
    requires Reaches(systems, actions, y, calm)
    ensures y.step == |actions| && |systems| == |actions| + 1 && systems[y.step] == y
  {
    StepsCount(systems, actions, |actions|);
  }

  lemma {:induction false} StepsCount(systems: seq<System>, actions: seq<Act>, n: nat)
    requires IsSystemRun(systems, actions, TTL) && n < |systems|
    ensures systems[n].step == n
  {
    if n > 0 {
      StepsCount(systems, actions, n - 1);
      assert systems[n - 1 + 1] == Do(systems[n - 1], actions[n - 1], TTL);
    }
  }

  /** It stores its page under the version it reads now, and answers. */
  lemma Fills(s0: seq<System>, a0: seq<Act>, y: System, calm: bool, r: int, f: Filters, fetch: Fetch)
    returns (systems: seq<System>, actions: seq<Act>, z: System)
    requires Reaches(s0, a0, y, calm) && r in y.readers && y.readers[r].filters == f &&
             y.readers[r].pc == Fetched(fetch)
    requires f.IsNormalized() && (calm ==> CalmRuns.QuietSince(y, f.teamId, fetch))
    ensures Reaches(systems, actions, z, calm) && s0 <= systems && Reading(y, z, r)
    ensures z.readers[r].filters == f && z.readers[r].pc == Answered(fetch)
    ensures var entry := Cached(fetch, y.core.clock, Undisturbed(y, f.teamId, fetch));
            z.cache == y.cache[Key(VersionOf(y, f.teamId), f) := entry]
  {
    systems, actions, z := ReadThen(s0, a0, y, calm, Advance(r, true));
    systems, actions, z := ReadThen(systems, actions, z, calm, Advance(r, true));
  }

  /** A whole List past the cache: it answers with what the database holds and leaves that behind. */
  lemma Lists(s0: seq<System>, a0: seq<Act>, y: System, calm: bool, r: int, f: Filters)
    returns (systems: seq<System>, actions: seq<Act>, z: System, entry: Cached)
    requires Reaches(s0, a0, y, calm) && r !in y.readers && MayList(y, f) && Key(VersionOf(y, f.teamId), f) !in y.cache
    ensures Reaches(systems, actions, z, calm) && s0 <= systems && Reading(y, z, r)
    ensures z.readers[r].filters == f && z.readers[r].pc == Answered(entry.fetch)
    ensures entry.fetch.page == Query(y.core.db.tasks, f) && entry.setAt == y.core.clock
    ensures entry.fetch.readStep < |systems| && systems[entry.fetch.readStep].core == y.core
    ensures z.cache == y.cache[Key(VersionOf(y, f.teamId), f) := entry]
  {
    systems, actions, z := Reads(s0, a0, y, calm, r, f);
    var fetch := z.readers[r].pc.fetch;
    entry := Cached(fetch, y.core.clock, Undisturbed(z, f.teamId, fetch));
    ghost var before := systems;
    systems, actions, z := Fills(systems, actions, z, calm, r, f, fetch);
    assert systems[fetch.readStep] == before[fetch.readStep];
  }

  /** A List that finds a page under the current version is served it. */
  lemma Hits(s0: seq<System>, a0: seq<Act>, y: System, calm: bool, r: int, f: Filters)
    returns (systems: seq<System>, actions: seq<Act>, z: System)
    requires Reaches(s0, a0, y, calm) && r !in y.readers && MayList(y, f)
    requires var key := Key(VersionOf(y, f.teamId), f); key in y.cache && y.core.clock <= y.cache[key].setAt + TTL
    ensures Reaches(systems, actions, z, calm) && s0 <= systems && Reading(y, z, r) && z.cache == y.cache
    ensures z.readers[r].filters == f && z.readers[r].since == |y.incrs|
    ensures z.readers[r].pc.Served? && z.readers[r].pc.entry == y.cache[Key(VersionOf(y, f.teamId), f)] &&
            z.readers[r].pc.known
  {
    systems, actions, z := Asks(s0, a0, y, calm, r, f);
    systems, actions, z := ReadThen(systems, actions, z, calm, Advance(r, true));
  }
}
