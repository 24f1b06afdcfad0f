/** Two analytic queries: tasks assigned outside their team, and the three most active creators of each team. */
module Analytics {
  import opened Wrappers
  import opened Domain
  import opened Store
  import opened Safety
  import Listing
  import Concurrent
  import Runs

  // ---------- invalid assignees: an anti-join over the membership table ----------

  function InvalidIds(db: Db, user: int): set<int> {
    set i | i in db.tasks
         && (db.tasks[i].teamId, user) in db.members
         && db.tasks[i].assigneeId.Some?
         && (db.tasks[i].teamId, db.tasks[i].assigneeId.value) !in db.members
  }

  /** The report names a task exactly when the caller is in its team and its assignee is not. */
  lemma InvalidIdsExact(db: Db, user: int, id: int)
    ensures id in InvalidIds(db, user) <==>
      && id in db.tasks && (db.tasks[id].teamId, user) in db.members
      && db.tasks[id].assigneeId.Some? && (db.tasks[id].teamId, db.tasks[id].assigneeId.value) !in db.members
  {
  }

  /** In every reachable state of the concurrent service the report is empty, whoever asks. */
  lemma NoInvalidAssignees(states: seq<Concurrent.State>, events: seq<Concurrent.Event>, n: nat, user: int)
    requires Concurrent.IsRun(states, events) && n < |states|
    ensures InvalidIds(states[n].db, user) == {}
  {
    Runs.ReachableSafe(states, events, n);
    EmptyReport(states[n].db, user);
  }

  lemma EmptyReport(db: Db, user: int)
    requires PeopleAreMembers(db)
    ensures InvalidIds(db, user) == {}
  {
    assert forall i :: i !in InvalidIds(db, user);
  }

  // ---------- top creators: group, number the rows, keep three ----------

  type Tasks = map<int, Task>

  predicate InWindow(task: Task, team: int, since: int) {
    task.teamId == team && task.createdAt >= since
  }

  function Creators(tasks: Tasks, team: int, since: int): set<int> {
    set i | i in tasks && InWindow(tasks[i], team, since) :: tasks[i].createdBy
  }

  function CreatedBy(tasks: Tasks, team: int, since: int, user: int): nat {
    |set i | i in tasks && InWindow(tasks[i], team, since) && tasks[i].createdBy == user|
  }

  function Counts(tasks: Tasks, team: int, since: int): map<int, nat> {
    map u | u in Creators(tasks, team, since) :: CreatedBy(tasks, team, since, u)
  }

  /** ORDER BY tasks_created DESC, user_id ASC. */
  predicate Precedes(counts: map<int, nat>, a: int, b: int)
    requires a in counts && b in counts
  {
    counts[a] > counts[b] || (counts[a] == counts[b] && a < b)
  }

  predicate IsFirst(counts: map<int, nat>, s: set<int>, m: int)
    requires s <= counts.Keys
  {
    m in s && forall x | x in s && x != m :: Precedes(counts, m, x)
  }

  lemma FirstOfTwo(counts: map<int, nat>, s: set<int>, y: int, m: int)
    requires s <= counts.Keys && y in s && IsFirst(counts, s - {y}, m)
    ensures IsFirst(counts, s, if Precedes(counts, y, m) then y else m)
  {
    forall x | x in s ensures x == y || x in s - {y} {}
  }

  lemma {:induction false} FirstExists(counts: map<int, nat>, s: set<int>)
    requires s != {} && s <= counts.Keys
    ensures exists m :: IsFirst(counts, s, m)
  {
    assert (forall y :: y !in s) ==> s == {};
    var y :| y in s;
    if s == {y} {
      assert IsFirst(counts, s, y);
    } else {
      FirstExists(counts, s - {y});
      var m :| IsFirst(counts, s - {y}, m);
      FirstOfTwo(counts, s, y, m);
    }
  }

  /** ROW_NUMBER: the creators in ranking order. */
  function Ranking(counts: map<int, nat>, s: set<int>): (ranking: seq<int>)
    requires s <= counts.Keys
    ensures |ranking| == |s|
    ensures forall u :: u in ranking <==> u in s
  {
    if s == {} then []
    else
      FirstExists(counts, s);
      var m :| IsFirst(counts, s, m);
      var ranking := [m] + Ranking(counts, s - {m});
      ranking
  }

  function Before(counts: map<int, nat>, s: set<int>, u: int): set<int>
    requires s <= counts.Keys && u in counts
  {
    set c | c in s && Precedes(counts, c, u)
  }

  lemma BeforeWithout(counts: map<int, nat>, s: set<int>, m: int, u: int)
    requires s <= counts.Keys && m in s && u in counts && Precedes(counts, m, u)
    ensures |Before(counts, s, u)| == 1 + |Before(counts, s - {m}, u)|
  {
    assert Before(counts, s, u) == Before(counts, s - {m}, u) + {m};
  }

  /** The creator at position i stands behind exactly i others. */
  lemma {:induction false} PositionIsCount(counts: map<int, nat>, s: set<int>, i: nat)
    requires s <= counts.Keys && i < |s|
    ensures Ranking(counts, s)[i] in s
    ensures |Before(counts, s, Ranking(counts, s)[i])| == i
  {
    var ranking := Ranking(counts, s);
    assert ranking[i] in ranking;
    var m := ranking[0];
    assert IsFirst(counts, s, m) && ranking[1..] == Ranking(counts, s - {m});
    if i == 0 {
      assert Before(counts, s, m) == {};
    } else {
      PositionIsCount(counts, s - {m}, i - 1);
      BeforeWithout(counts, s, m, ranking[i]);
    }
  }

  datatype TopCreator = TopCreator(team: int, user: int, tasksCreated: nat, rank: nat)

  /** WHERE rn <= 3, for one team. */
  function TopOfTeam(tasks: Tasks, team: int, since: int): (rows: seq<TopCreator>)
    ensures |rows| <= 3
  {
    var counts := Counts(tasks, team, since);
    var ranking := Ranking(counts, counts.Keys);
    seq(if |ranking| < 3 then |ranking| else 3,
        (i: nat) requires i < |ranking| =>
          assert ranking[i] in ranking;
          TopCreator(team, ranking[i], counts[ranking[i]], i + 1))
  }

  /** The rows of every listed team, the last one first: ids come in descending, the report is ordered by team id. */
  function TopOfTeams(tasks: Tasks, teams: seq<int>, since: int): seq<TopCreator> {
    if teams == [] then []
    else TopOfTeams(tasks, teams[1..], since) + TopOfTeam(tasks, teams[0], since)
  }

  function TeamsOf(db: Db, user: int): set<int> {
    set t | t in db.teams && (t, user) in db.members
  }

  function TopCreators(db: Db, user: int, since: int): seq<TopCreator> {
    TopOfTeams(db.tasks, Listing.SortDesc(TeamsOf(db, user)), since)
  }

  /** A creator is listed at rank k for a team exactly when k <= 3 and exactly k - 1 creators of that team come before
      by (tasks created descending, user id ascending); the number shown is that creator's tasks in the window. */
  ghost predicate Listed(tasks: Tasks, since: int, row: TopCreator) {
    var counts := Counts(tasks, row.team, since);
    && row.user in counts && 1 <= row.rank <= 3
    && row.tasksCreated == CreatedBy(tasks, row.team, since, row.user)
    && |Before(counts, counts.Keys, row.user)| == row.rank - 1
  }

  lemma TopOfTeamExact(tasks: Tasks, team: int, since: int, row: TopCreator)
    ensures row in TopOfTeam(tasks, team, since) <==> row.team == team && Listed(tasks, since, row)
  {
    var counts, rows := Counts(tasks, team, since), TopOfTeam(tasks, team, since);
    var ranking := Ranking(counts, counts.Keys);
    if row in rows {
      var i :| 0 <= i < |rows| && rows[i] == row;
      PositionIsCount(counts, counts.Keys, i);
    }
    if row.team == team && Listed(tasks, since, row) {
      assert row.user in ranking;
      var i :| 0 <= i < |ranking| && ranking[i] == row.user;
      PositionIsCount(counts, counts.Keys, i);
      assert rows[i] == row;
    }
  }

  lemma {:induction false} TopOfTeamsExact(tasks: Tasks, teams: seq<int>, since: int, row: TopCreator)
    ensures row in TopOfTeams(tasks, teams, since) <==> row.team in teams && Listed(tasks, since, row)
  {
    if teams != [] {
      TopOfTeamsExact(tasks, teams[1..], since, row);
      TopOfTeamExact(tasks, teams[0], since, row);
    }
  }

  lemma ListedIff(db: Db, user: int, since: int, row: TopCreator)
    ensures row in TopCreators(db, user, since) <==>
      row.team in db.teams && (row.team, user) in db.members && Listed(db.tasks, since, row)
  {
    TopOfTeamsExact(db.tasks, Listing.SortDesc(TeamsOf(db, user)), since, row);
  }

  /** Being listed, over the columns of the task table. */
  lemma ListedSpelledOut(tasks: Tasks, since: int, row: TopCreator)
    ensures var count := (u: int) =>
              |set i | i in tasks && tasks[i].teamId == row.team && tasks[i].createdAt >= since
                       && tasks[i].createdBy == u|;
            Listed(tasks, since, row) <==>
              && 1 <= row.rank <= 3 && row.tasksCreated > 0 && row.tasksCreated == count(row.user)
              && row.rank - 1 == |set u | u in (set i | i in tasks :: tasks[i].createdBy)
                                       && (count(u) > count(row.user) || (count(u) == count(row.user) && u < row.user))|
  {
    var count := (u: int) =>
      |set i | i in tasks && tasks[i].teamId == row.team && tasks[i].createdAt >= since && tasks[i].createdBy == u|;
    var counts := Counts(tasks, row.team, since);
    forall u ensures count(u) == CreatedBy(tasks, row.team, since, u) && (u in counts <==> count(u) > 0) {
      CountSpelledOut(tasks, row.team, since, u);
    }
    if row.user in counts {
      assert Before(counts, counts.Keys, row.user) ==
             set u | u in (set i | i in tasks :: tasks[i].createdBy)
                     && (count(u) > count(row.user) || (count(u) == count(row.user) && u < row.user));
    }
  }

  lemma CountSpelledOut(tasks: Tasks, team: int, since: int, u: int)
    ensures var own := set i | i in tasks && tasks[i].teamId == team && tasks[i].createdAt >= since
                               && tasks[i].createdBy == u;
            && |own| == CreatedBy(tasks, team, since, u)
            && (u in Counts(tasks, team, since) <==> |own| > 0)
            && (u in Counts(tasks, team, since) ==> Counts(tasks, team, since)[u] == |own|)
            && (|own| > 0 ==> u in set i | i in tasks :: tasks[i].createdBy)
  {
    var own := set i | i in tasks && tasks[i].teamId == team && tasks[i].createdAt >= since && tasks[i].createdBy == u;
    assert own == set i | i in tasks && InWindow(tasks[i], team, since) && tasks[i].createdBy == u;
    if u in Creators(tasks, team, since) {
      var i :| i in tasks && InWindow(tasks[i], team, since) && tasks[i].createdBy == u;
      assert i in own;
    }
    assert (forall i :: i !in own) ==> own == {};
  }

  /** The whole report over the tables: a user is listed for a team of the caller at rank k exactly when k <= 3, the
      user created tasks there in the window, as many as shown, and k - 1 users created more, or as many with a
      smaller id. */
  lemma TopCreatorsExact(db: Db, user: int, since: int, row: TopCreator)
    ensures var count := (u: int) =>
              |set i | i in db.tasks && db.tasks[i].teamId == row.team && db.tasks[i].createdAt >= since
                       && db.tasks[i].createdBy == u|;
            row in TopCreators(db, user, since) <==>
              && row.team in db.teams && (row.team, user) in db.members
              && 1 <= row.rank <= 3 && row.tasksCreated > 0 && row.tasksCreated == count(row.user)
              && row.rank - 1 == |set u | u in (set i | i in db.tasks :: db.tasks[i].createdBy)
                                       && (count(u) > count(row.user) || (count(u) == count(row.user) && u < row.user))|
  {
    ListedIff(db, user, since, row);
    ListedSpelledOut(db.tasks, since, row);
  }

  /** ORDER BY team_id, rank. */
  ghost predicate InReportOrder(rows: seq<TopCreator>) {
    forall i, j | 0 <= i < j < |rows| ::
      rows[i].team < rows[j].team || (rows[i].team == rows[j].team && rows[i].rank < rows[j].rank)
  }

  lemma TeamsBelow(tasks: Tasks, teams: seq<int>, since: int, team: int)
    requires forall t | t in teams :: t < team
    ensures forall i | 0 <= i < |TopOfTeams(tasks, teams, since)| :: TopOfTeams(tasks, teams, since)[i].team < team
  {
    var rows := TopOfTeams(tasks, teams, since);
    forall i | 0 <= i < |rows| ensures rows[i].team < team {
      assert rows[i] in rows;
      TopOfTeamsExact(tasks, teams, since, rows[i]);
    }
  }

  lemma OrderedAppend(a: seq<TopCreator>, b: seq<TopCreator>, team: int)
    requires InReportOrder(a) && InReportOrder(b)
    requires (forall i | 0 <= i < |a| :: a[i].team < team) && forall i | 0 <= i < |b| :: b[i].team == team
    ensures InReportOrder(a + b)
  {
  }

  lemma {:induction false} TopOfTeamsOrdered(tasks: Tasks, teams: seq<int>, since: int)
    requires Listing.Descending(teams)
    ensures InReportOrder(TopOfTeams(tasks, teams, since))
  {
    if teams != [] {
      TopOfTeamsOrdered(tasks, teams[1..], since);
      TeamsBelow(tasks, teams[1..], since, teams[0]);
      OrderedAppend(TopOfTeams(tasks, teams[1..], since), TopOfTeam(tasks, teams[0], since), teams[0]);
    }
  }

  /** The report comes in the order the query asks for; with TopCreatorsExact this fixes it completely. */
  lemma TopCreatorsOrdered(db: Db, user: int, since: int)
    ensures InReportOrder(TopCreators(db, user, since))
  {
    TopOfTeamsOrdered(db.tasks, Listing.SortDesc(TeamsOf(db, user)), since);
  }
}
