/** The theorems about whole runs of the concurrent service. */
module Runs {
  import opened Wrappers
  import opened Domain
  import opened Store
  import opened Serial
  import opened Safety
  import opened Concurrent
  import opened Linearization

  /** The committed tables are exactly what executing the log one request at a time produces. */
  ghost predicate Faithful(s: State) {
    Legal(s.log) && s.db == After(s.log)
  }

  lemma MovesFaithfully(s: State, s2: State)
    requires Faithful(s) && Moves(s, s2)
    ensures Faithful(s2) && s.log <= s2.log
  {
    if s2.log != s.log {
      var e: Entry :| s2.log == s.log + [e] && Executes(s, e, s2);
      assert s2.log[..|s2.log| - 1] == s.log;
    }
  }

  lemma {:induction false} RunKeeps(states: seq<State>, events: seq<Event>, n: nat)
    requires IsRun(states, events) && n < |states|
    ensures Inv(states[n]) && Faithful(states[n])
  {
    if n > 0 {
      RunKeeps(states, events, n - 1);
      StepKeeps(states[n - 1], events[n - 1]);
      MovesFaithfully(states[n - 1], states[n]);
    }
  }

  /** What one step can do to the log and to the arrival marks. */
  ghost predicate Advances(s: State, s2: State) {
    && s.log <= s2.log
    && forall o | o in s2.ops :: s2.ops[o].since == if o in s.ops then s.ops[o].since else |s.log|
  }

  lemma RunAdvances(states: seq<State>, events: seq<Event>, k: nat)
    requires IsRun(states, events) && k < |events|
    ensures Advances(states[k], states[k + 1])
  {
    RunKeeps(states, events, k);
    StepAdvances(states[k], events[k]);
  }

  lemma StepAdvances(s: State, e: Event)
    requires Inv(s) && Faithful(s) && Enabled(s, e)
    ensures Advances(s, Next(s, e))
  {
    StepKeeps(s, e);
    MovesFaithfully(s, Next(s, e));
    Arrivals(s, e);
  }

  lemma Arrivals(s: State, e: Event)
    requires Enabled(s, e)
    ensures var s2 := Next(s, e);
            forall o | o in s2.ops :: s2.ops[o].since == if o in s.ops then s.ops[o].since else |s.log|
  {
    if e.Step? {
      StepMovesOnly(s, e.op);
    }
  }

  lemma {:induction false} AdvancesFar(states: seq<State>, m: nat, n: nat)
    requires m <= n < |states| && forall k | 0 <= k < |states| - 1 :: Advances(states[k], states[k + 1])
    ensures states[m].log <= states[n].log
    ensures forall o | o in states[n].ops && o !in states[m].ops :: states[n].ops[o].since >= |states[m].log|
    decreases n - m
  {
    if m < n {
      AdvancesFar(states, m, n - 1);
      assert Advances(states[n - 1], states[n - 1 + 1]);
    }
  }

  lemma LogGrows(states: seq<State>, events: seq<Event>, m: nat, n: nat)
    requires IsRun(states, events) && m <= n < |states|
    ensures states[m].log <= states[n].log
    ensures forall o | o in states[n].ops && o !in states[m].ops :: states[n].ops[o].since >= |states[m].log|
  {
    forall k | 0 <= k < |states| - 1 ensures Advances(states[k], states[k + 1]) {
      RunAdvances(states, events, k);
    }
    AdvancesFar(states, m, n);
  }

  // ---------- linearizability ----------

  /** Every run of interleaved, possibly failing requests leaves the tables that the logged requests leave when
      executed one by one; an answered request has the answer it gets there, or failed inside the infrastructure. */
  lemma Linearizable(states: seq<State>, events: seq<Event>, n: nat)
    requires IsRun(states, events) && n < |states|
    ensures Legal(states[n].log) && states[n].db == After(states[n].log)
    ensures forall o | o in states[n].ops && states[n].ops[o].pc.Returned? ::
      var s, resp := states[n], states[n].ops[o].pc.resp;
      match s.ops[o].pc.took
      case None => resp == Err(Internal) && forall k | 0 <= k < |s.log| :: s.log[k].op != o
      case Some(at) =>
        && at < |s.log| && s.log[at].op == o && s.log[at].call == s.ops[o].call
        && (resp == s.log[at].resp || (resp == Err(Internal) && s.log[at].resp.Ok?))
    ensures forall i, j | 0 <= i < j < |states[n].log| :: states[n].log[i].op != states[n].log[j].op
  {
    RunKeeps(states, events, n);
    var s := states[n];
    forall o | o in s.ops && s.ops[o].pc.Returned? ensures OpOk(s, o) { }
  }

  /** A step of request o moves nobody else, and o keeps its arrival and its arguments. */
  ghost predicate MovesOnly(s: State, s2: State, o: int) {
    && o in s.ops && s2.ops.Keys == s.ops.Keys
    && (forall k | k in s.ops && k != o :: s2.ops[k] == s.ops[k])
    && s2.ops[o].since == s.ops[o].since && s2.ops[o].call == s.ops[o].call
  }

  lemma LockedMovesOnly(s: State, o: int, patch: Patch)
    requires o in s.ops && s.ops[o].call.UpdateTask?
    ensures s.ops[o].pc.UpdateLocked? ==> MovesOnly(s, Authorize(s, o, patch), o)
    ensures s.ops[o].pc.UpdateWriting? ==> MovesOnly(s, Write(s, o, patch), o)
  {
  }

  lemma ReadMovesOnly(s: State, o: int)
    requires o in s.ops && s.ops[o].call.UpdateTask? && !Locking(s.ops[o].pc)
    ensures MovesOnly(s, StepUpdate(s, o), o)
  {
  }

  lemma UpdateMovesOnly(s: State, o: int)
    requires o in s.ops && s.ops[o].call.UpdateTask?
    ensures MovesOnly(s, StepUpdate(s, o), o)
  {
    if !Locking(s.ops[o].pc) {
      ReadMovesOnly(s, o);
    } else if ValidatePatch(s.ops[o].call.patch).Ok? {
      var patch := ValidatePatch(s.ops[o].call.patch).value;
      LockedMovesOnly(s, o, patch);
      assert StepUpdate(s, o) == if s.ops[o].pc.UpdateLocked? then Authorize(s, o, patch) else Write(s, o, patch);
    }
  }

  lemma CreateReadsMovesOnly(s: State, o: int)
    requires o in s.ops && s.ops[o].call.CreateTask? && !s.ops[o].pc.CreateLogged?
    ensures MovesOnly(s, StepCreateTask(s, o), o)
  {
  }

  lemma CreateMovesOnly(s: State, o: int)
    requires o in s.ops && s.ops[o].call.CreateTask?
    ensures MovesOnly(s, StepCreateTask(s, o), o)
  {
    if !s.ops[o].pc.CreateLogged? {
      CreateReadsMovesOnly(s, o);
    }
  }

  lemma InviteMovesOnly(s: State, o: int)
    requires o in s.ops && s.ops[o].call.Invite?
    ensures MovesOnly(s, StepInvite(s, o), o)
  {
  }

  lemma TeamMovesOnly(s: State, o: int)
    requires o in s.ops && s.ops[o].call.CreateTeam?
    ensures MovesOnly(s, StepCreateTeam(s, o), o)
  {
  }

  lemma StepMovesOnly(s: State, o: int)
    requires o in s.ops
    ensures MovesOnly(s, StepOp(s, o), o)
  {
    if !s.ops[o].pc.Finishing? {
      match s.ops[o].call
      case UpdateTask(_, _, _) => UpdateMovesOnly(s, o);
      case CreateTask(_, _) => CreateMovesOnly(s, o);
      case Invite(_, _, _, _) => InviteMovesOnly(s, o);
      case CreateTeam(_, _, _) => TeamMovesOnly(s, o);
    }
  }

  /** Real-time order: a request that was answered before another arrived comes earlier in the log. */
  lemma RealTimeOrder(states: seq<State>, events: seq<Event>, m: nat, n: nat, a: int, b: int)
    requires IsRun(states, events) && m <= n < |states|
    requires a in states[m].ops && states[m].ops[a].pc.Returned? && states[m].ops[a].pc.took.Some?
    requires b !in states[m].ops && b in states[n].ops && TookAt(states[n].ops[b].pc).Some?
    ensures states[m].ops[a].pc.took.value < TookAt(states[n].ops[b].pc).value
  {
    RunKeeps(states, events, m);
    RunKeeps(states, events, n);
    assert OpOk(states[m], a) && OpOk(states[n], b);
    LogGrows(states, events, m, n);
  }

  /** A commit of an update overwrites the very row it locked, authorized by the author's role and that row. */
  lemma CommitOnLockedRow(states: seq<State>, events: seq<Event>, n: nat, o: int)
    requires IsRun(states, events) && n < |events| && events[n] == Step(o)
    requires o in states[n].ops && states[n].ops[o].pc.UpdateWriting? && states[n + 1].ops[o].pc.Finishing?
    ensures var s, op := states[n], states[n].ops[o];
            && op.call.UpdateTask? && ValidatePatch(op.call.patch).Ok? && op.call.taskId in s.db.tasks
            && var task, patch := s.db.tasks[op.call.taskId], PatchOf(op.call);
               && (task.teamId, op.call.actor) in s.db.members
               && (states[n + 1].db, states[n + 1].ops[o].pc.resp) ==
                  WriteUpdate(s.db, task, patch, op.call.actor, op.pc.now)
               && var role := s.db.members[(task.teamId, op.call.actor)].role;
                  CanUpdateTask(patch, AccessOf(role, task, op.call.actor)).Ok?
  {
    RunKeeps(states, events, n);
    assert OpOk(states[n], o);
  }

  function InviteOutcome(db: Db, call: Call): (Db, Response)
    requires call.Invite?
  {
    ExecInvite(db, call.actor, call.team, call.input, call.invitee)
  }

  lemma InviteResolves(s: State, o: int)
    requires o in s.ops && s.ops[o].call.Invite? && s.ops[o].pc.Begun?
    ensures var s2 := StepOp(s, o);
            && o in s2.ops && s2.ops[o].call == s.ops[o].call && s2.db == s.db
            && match s2.ops[o].pc
               case Returned(resp, _) => (s.db, resp) == InviteOutcome(s.db, s.ops[o].call)
               case InviteRoled(user, target) => Inviting(s, s.ops[o].call, user, target)
               case _ => false
  {
  }

  lemma InviteChecks(s: State, o: int)
    requires o in s.ops && s.ops[o].pc.InviteRoled?
    requires Inviting(s, s.ops[o].call, s.ops[o].pc.user, s.ops[o].pc.target)
    ensures var s2 := StepOp(s, o);
            && o in s2.ops && s2.ops[o].call == s.ops[o].call && s2.db == s.db
            && match s2.ops[o].pc
               case Returned(resp, _) => (s.db, resp) == InviteOutcome(s.db, s.ops[o].call)
               case InviteReady(user, target) =>
                 Inviting(s, s.ops[o].call, user, target) && !IsMember(s.db, s.ops[o].call.team, user)
               case _ => false
  {
  }

  lemma InviteAdds(s: State, o: int)
    requires o in s.ops && s.ops[o].pc.InviteReady?
    requires Inviting(s, s.ops[o].call, s.ops[o].pc.user, s.ops[o].pc.target)
    requires !IsMember(s.db, s.ops[o].call.team, s.ops[o].pc.user)
    ensures var s2 := StepOp(s, o);
            && o in s2.ops && s2.ops[o].pc.Finishing?
            && (s2.db, s2.ops[o].pc.resp) == InviteOutcome(s.db, s.ops[o].call)
  {
  }

  /** An invitation that nobody interrupts runs to its end in at most three steps, with the sequential outcome. */
  lemma InviteRunsThrough(s: State, o: int) returns (end: State)
    requires o in s.ops && s.ops[o].call.Invite? && s.ops[o].pc.Begun?
    ensures end == StepOp(s, o) || (o in StepOp(s, o).ops && end == StepOp(StepOp(s, o), o))
         || (o in StepOp(s, o).ops && o in StepOp(StepOp(s, o), o).ops && end == StepOp(StepOp(StepOp(s, o), o), o))
    ensures o in end.ops && (end.ops[o].pc.Returned? || end.ops[o].pc.Finishing?)
    ensures (end.db, end.ops[o].pc.resp) == InviteOutcome(s.db, s.ops[o].call)
  {
    InviteResolves(s, o);
    end := StepOp(s, o);
    if end.ops[o].pc.InviteRoled? {
      InviteChecks(end, o);
      end := StepOp(end, o);
      if end.ops[o].pc.InviteReady? {
        InviteAdds(end, o);
        end := StepOp(end, o);
      }
    }
  }

  // ---------- safety of every reachable state ----------

  /** In every reachable state: the invite forest, members only as creators and assignees, completion times, the
      authorized log, audit rows whose ids follow commit order, and created <= completed <= updated <= now. */
  lemma ReachableSafe(states: seq<State>, events: seq<Event>, n: nat)
    requires IsRun(states, events) && n < |states|
    ensures Safe(states[n].db)
    ensures RowIdsOk(states[n])
    ensures forall i | i in states[n].db.tasks :: TimesOk(states[n].db.tasks[i], states[n].clock)
  {
    RunKeeps(states, events, n);
    AlwaysSafe(states[n].log);
  }

  /** Between any two points of a run, the audit rows of a task lead from its earlier row to its later one and back;
      members, roles and a task's team, creator and creation time are as they were. */
  lemma ReachableAudit(states: seq<State>, events: seq<Event>, m: nat, n: nat, i: int)
    requires IsRun(states, events) && m <= n < |states|
    ensures AuditLeads(states[m].db, states[n].db, i)
    ensures Extends(states[m].db, states[n].db)
  {
    RunKeeps(states, events, m);
    RunKeeps(states, events, n);
    LogGrows(states, events, m, n);
    var log := states[n].log;
    assert log[..|states[m].log|] == states[m].log;
    AuditReplays(log, |states[m].log|, i);
  }
}
