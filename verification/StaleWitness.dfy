/** A run with no failure at all in which a List misses a task created, and invalidated for, before it arrived:
    the fill condition of module Freshness cannot be dropped. */
module StaleWitness {
  import opened Domain
  import opened Store
  import opened Listing
  import opened Concurrent
  import opened CacheProtocol
  import opened Scenario
  import Wrappers

  const FILTERS := Filters(1, "", Wrappers.None, 1, 20)

  lemma EmptyAnswer()
    ensures FILTERS.Normalized() == FILTERS && FILTERS.Valid() && FILTERS.IsNormalized() && OffsetOk(FILTERS)
    ensures Query(map[], FILTERS).total == 0
  {
    assert MatchingIds(map[], FILTERS) == {};
  }

  lemma FullAnswer(task: Task)
    requires task.teamId == 1
    ensures Query(map[1 := task], FILTERS).total == 1
  {
    assert FILTERS.Matches(task);
    assert MatchingIds(map[1 := task], FILTERS) == {1};
  }

  /** The first List reads the empty table, then the task is created and its request answered. */
  lemma ReadThenCreated() returns (systems: seq<System>, actions: seq<Act>, y: System)
    ensures Reaches(systems, actions, y, false)
    ensures y.core.ops.Keys == {0, 1} &&
            y.core.ops[1].pc == Returned(Wrappers.Ok(TaskReply(Fresh(1, 0))), Wrappers.Some(1))
    ensures y.core.db.tasks == map[1 := Fresh(1, 0)] && (1, ACTOR) in y.core.db.members && y.core.clock == 0
    ensures VersionOf(y, 1) == 1 && y.incrs == [Incr(1, 1, 1)] && y.cache == map[] && y.readers.Keys == {1}
    ensures y.readers[1].filters == FILTERS && y.readers[1].pc.Fetched?
    ensures var fetch := y.readers[1].pc.fetch; fetch.page.total == 0 && fetch.marks == 0 && fetch.logLength == 1
  {
    EmptyAnswer();
    systems, actions, y := TeamCreated();
    systems, actions, y := Reads(systems, actions, y, false, 1, FILTERS);
    systems, actions, y := TaskCreated(systems, actions, y, false, 1);
    systems, actions, y := TaskAnswered(systems, actions, y, false, 1, Fresh(1, 0), 1);
  }

  /** Nothing failed, the task was answered and its team's version raised before the second List arrived, and yet
      that List is served a page without it. */
  lemma StaleRun() returns (systems: seq<System>, actions: seq<Act>, y: System)
    ensures IsSystemRun(systems, actions, TTL) && y == systems[|actions|]
    ensures forall a | a in actions :: Smooth(a)
    ensures 2 in y.readers && 1 in y.core.ops
    ensures y.core.ops[1].pc.Returned? && y.core.ops[1].pc.resp == Wrappers.Ok(TaskReply(Fresh(1, 0)))
    ensures var reader := y.readers[2];
            && 0 < reader.since <= |y.incrs| && y.incrs[0] == Incr(1, 1, 1)
            && reader.pc.Served? && reader.pc.known && !reader.pc.entry.clean && reader.filters.IsNormalized()
            && reader.pc.entry.fetch.page.total == 0 && Query(y.core.db.tasks, reader.filters).total == 1
  {
    EmptyAnswer();
    systems, actions, y := ReadThenCreated();
    var fetch := y.readers[1].pc.fetch;
    assert y.incrs[0].team == 1 && TookEffect(y.core, y.incrs[0].op) == 1;
    assert !Undisturbed(y, 1, fetch);
    systems, actions, y := Fills(systems, actions, y, false, 1, FILTERS, fetch);
    systems, actions, y := Hits(systems, actions, y, false, 2, FILTERS);
    FullAnswer(Fresh(1, 0));
  }
}
