/** Runs in which every INCR and version read succeeds, no version is lost, and no INCR of a team falls between a
    fill's database read and its version read: there every List sees all task requests answered before it started. */
module CalmRuns {
  import opened Wrappers
  import opened Domain
  import opened Concurrent
  import opened Coherence
  import opened Runs
  import opened CacheProtocol
  import opened Freshness

  // ---------- the assumption ----------

  ghost predicate QuietSince(y: System, team: int, fetch: Fetch) {
    forall i | fetch.marks <= i < |y.incrs| :: y.incrs[i].team != team
  }

  ghost predicate CalmAct(y: System, a: Act) {
    match a
    case Core(_, incrOk) => incrOk
    case Forget(_) => false
    case Advance(r, ok) =>
      r in y.readers ==>
        (match y.readers[r].pc
         case Asked => ok
         case Fetched(fetch) => ok && QuietSince(y, y.readers[r].filters.teamId, fetch)
         case _ => true)
    case _ => true
  }

  ghost predicate CalmRun(systems: seq<System>, actions: seq<Act>, ttl: nat) {
    && IsSystemRun(systems, actions, ttl)
    && forall n | 0 <= n < |actions| :: CalmAct(systems[n], actions[n])
  }

  // ---------- what it keeps ----------

  /** Request o was answered with a task of this team. */
  ghost predicate AnsweredTask(s: State, o: int, team: int) {
    && o in s.ops && s.ops[o].pc.Returned? && s.ops[o].pc.resp.Ok?
    && s.ops[o].pc.resp.value.TaskReply? && s.ops[o].pc.resp.value.task.teamId == team
  }

  ghost predicate HasIncr(y: System, o: int, team: int) {
    exists i :: 0 <= i < |y.incrs| && y.incrs[i].op == o && y.incrs[i].team == team
  }

  predicate CalmReader(pc: ReaderPc) {
    match pc
    case Versioned(_, known, _) => known
    case Filling(_, _, clean) => clean
    case Served(entry, _, known, _, _) => known && entry.clean
    case _ => true
  }

  ghost predicate CalmCache(y: System) {
    && (forall k | k in y.cache :: y.cache[k].clean)
    && (forall r | r in y.readers :: CalmReader(y.readers[r].pc))
  }

  ghost predicate AllInvalidated(y: System) {
    forall o, team | AnsweredTask(y.core, o, team) :: HasIncr(y, o, team)
  }

  lemma UpdateAnswers(s: State, o: int)
    requires o in s.ops && s.ops[o].call.UpdateTask? && !s.ops[o].pc.Returned?
    ensures o in StepUpdate(s, o).ops
    ensures StepUpdate(s, o).ops[o].pc.Returned? ==> StepUpdate(s, o).ops[o].pc.resp.Err?
  {
    if ValidatePatch(s.ops[o].call.patch).Ok? {
      var patch := ValidatePatch(s.ops[o].call.patch).value;
      match s.ops[o].pc
      case UpdateLocked(_, _) => assert StepUpdate(s, o) == Authorize(s, o, patch);
      case UpdateWriting(_, _, _, _) => assert StepUpdate(s, o) == Write(s, o, patch);
      case _ =>
    }
  }

  lemma CreateAnswers(s: State, o: int)
    requires o in s.ops && s.ops[o].call.CreateTask? && !s.ops[o].pc.Returned?
    ensures o in StepCreateTask(s, o).ops
    ensures StepCreateTask(s, o).ops[o].pc.Returned? ==> StepCreateTask(s, o).ops[o].pc.resp.Err?
  {
  }

  lemma InviteAnswers(s: State, o: int)
    requires o in s.ops && s.ops[o].call.Invite? && !s.ops[o].pc.Returned?
    ensures o in StepInvite(s, o).ops
    ensures var pc := StepInvite(s, o).ops[o].pc; pc.Returned? ==> pc.resp.Err? || pc.resp.value.MemberReply?
  {
  }

  /** A request is answered with a task only in the step that invalidates the task's team. */
  lemma AnswerInvalidates(s: State, e: Event, o: int, team: int)
    requires Enabled(s, e) && AnsweredTask(Next(s, e), o, team) && !AnsweredTask(s, o, team)
    ensures e == Step(o) && Invalidates(s, e) == Some(team)
  {
    match e
    case Step(p) =>
      StepMovesOnly(s, p);
      if !s.ops[p].pc.Finishing? {
        match s.ops[p].call
        case UpdateTask(_, _, _) => UpdateAnswers(s, p);
        case CreateTask(_, _) => CreateAnswers(s, p);
        case Invite(_, _, _, _) => InviteAnswers(s, p);
        case CreateTeam(_, _, _) =>
      }
    case _ =>
  }

  lemma CoreInvalidates(y: System, e: Event)
    requires Enabled(y.core, e) && AllInvalidated(y)
    ensures AllInvalidated(CoreStep(y, e, true))
  {
    var z := CoreStep(y, e, true);
    forall o, team | AnsweredTask(z.core, o, team) ensures HasIncr(z, o, team) {
      if AnsweredTask(y.core, o, team) {
        var i :| 0 <= i < |y.incrs| && y.incrs[i].op == o && y.incrs[i].team == team;
        assert z.incrs[i] == y.incrs[i];
      } else {
        AnswerInvalidates(y.core, e, o, team);
        assert z.incrs[|y.incrs|].op == o;
      }
    }
  }

  lemma AdvanceCalm(y: System, r: Reader, ok: bool, ttl: nat)
    requires r.filters.IsNormalized() && CalmReader(r.pc) && forall k | k in y.cache :: y.cache[k].clean
    requires r.pc.Asked? ==> ok
    requires r.pc.Fetched? ==> ok && QuietSince(y, r.filters.teamId, r.pc.fetch)
    ensures var (pc, cache) := ReaderStep(y, r, ok, ttl);
            CalmReader(pc) && forall k | k in cache :: cache[k].clean
  {
    if r.pc.Fetched? {
      NoIncrMeansUndisturbed(y, r.filters.teamId, r.pc.fetch);
    }
  }

  lemma CalmMove(y: System, a: Act, ttl: nat)
    requires Possible(y, a) && CalmAct(y, a) && CalmCache(y)
    ensures CalmCache(Do(y, a, ttl))
  {
    if a.Advance? {
      AdvanceCalm(y, y.readers[a.reader], a.ok, ttl);
    }
  }

  lemma InvalidatedMove(y: System, a: Act, ttl: nat)
    requires Possible(y, a) && CalmAct(y, a) && AllInvalidated(y)
    ensures AllInvalidated(Do(y, a, ttl))
  {
    if a.Core? {
      CoreInvalidates(y, a.event);
    }
    forall o, team | AnsweredTask(Do(y, a, ttl).core, o, team) ensures HasIncr(Do(y, a, ttl), o, team) {
      var z := Moved(y, a, ttl);
      assert HasIncr(z, o, team);
    }
  }

  lemma {:induction false} AlwaysCalm(systems: seq<System>, actions: seq<Act>, ttl: nat, n: nat)
    requires CalmRun(systems, actions, ttl) && n < |systems|
    ensures CalmCache(systems[n]) && AllInvalidated(systems[n])
  {
    if n > 0 {
      AlwaysCalm(systems, actions, ttl, n - 1);
      CalmMove(systems[n - 1], actions[n - 1], ttl);
      InvalidatedMove(systems[n - 1], actions[n - 1], ttl);
    }
  }

  // ---------- what a List sees ----------

  /** Marks grow, and a List that arrives takes the current number of them. */
  ghost predicate Arrives(y: System, z: System) {
    && y.incrs <= z.incrs && y.readers.Keys <= z.readers.Keys
    && forall r | r in z.readers :: z.readers[r].since == if r in y.readers then y.readers[r].since else |y.incrs|
  }

  lemma StepArrives(y: System, a: Act, ttl: nat)
    requires Possible(y, a)
    ensures Arrives(y, Do(y, a, ttl))
  {
  }

  lemma {:induction false} ArrivesFar(systems: seq<System>, m: nat, n: nat)
    requires m <= n < |systems| && forall k | 0 < k < |systems| :: Arrives(systems[k - 1], systems[k])
    ensures systems[m].incrs <= systems[n].incrs
    ensures forall r | r in systems[n].readers && r !in systems[m].readers ::
              systems[n].readers[r].since >= |systems[m].incrs|
    ensures systems[m].readers.Keys <= systems[n].readers.Keys
    decreases n - m
  {
    if m < n {
      ArrivesFar(systems, m, n - 1);
      assert Arrives(systems[n - 1], systems[n]);
    }
  }

  lemma ArrivesAfter(systems: seq<System>, actions: seq<Act>, ttl: nat, m: nat, n: nat)
    requires IsSystemRun(systems, actions, ttl) && m <= n < |systems|
    ensures systems[m].incrs <= systems[n].incrs
    ensures forall r | r in systems[n].readers && r !in systems[m].readers ::
              systems[n].readers[r].since >= |systems[m].incrs|
  {
    forall k | 0 < k < |systems| ensures Arrives(systems[k - 1], systems[k]) {
      StepArrives(systems[k - 1], actions[k - 1], ttl);
    }
    ArrivesFar(systems, m, n);
  }

  /** Coherence, end to end: in a calm run, the page of a List that started after a task request of the team was
      answered — from the cache or not — is the answer after a prefix of the log that includes that request. */
  lemma ListSeesAnsweredRequests(
      systems: seq<System>, actions: seq<Act>, ttl: nat, m: nat, n: nat, o: int, team: int, r: int)
    requires CalmRun(systems, actions, ttl) && m <= n < |systems|
    requires AnsweredTask(systems[m].core, o, team)
    requires r !in systems[m].readers && r in systems[n].readers && systems[n].readers[r].filters.teamId == team
    requires systems[n].readers[r].pc.Served? || systems[n].readers[r].pc.Answered?
    ensures var y, reader := systems[n], systems[n].readers[r];
            var fetch := Origin(reader.pc);
            Reflects(y.core.log, reader.filters, fetch) && TookEffect(y.core, o) < fetch.logLength
  {
    AlwaysCalm(systems, actions, ttl, m);
    AlwaysCalm(systems, actions, ttl, n);
    ArrivesAfter(systems, actions, ttl, m, n);
    AlwaysTracked(systems, actions, ttl, n);
    assert HasIncr(systems[m], o, team);
    var i :| 0 <= i < |systems[m].incrs| && systems[m].incrs[i].op == o && systems[m].incrs[i].team == team;
    assert systems[n].incrs[i] == systems[m].incrs[i];
    assert ReaderOk(systems[n], systems[n].readers[r]) && CalmReader(systems[n].readers[r].pc);
    ListSeesEarlierRequests(systems, actions, ttl, n, r, i);
  }
}
