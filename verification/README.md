# Task Team Service: a verified model

A Dafny model of the state-carrying core of the Task Team Service: task lists cached in Redis, task updates with an
audit log, team memberships, and the request rate limiter.

Two views of the same rules are kept side by side.

* **The service as objects.** `Repositories`, `TaskCaching`, `Services` and `RateLimiter` hold classes with the
  service's own methods: transactions run statement by statement on a private copy of the tables, any numbered
  statement may fail, `BuildHistory` patches the row column by column, audit rows are inserted in a loop. Every method
  is proved against a value-level specification (`Store.Exec...`, `Store.Diff`, `Store.Patched`, `Listing.Query`,
  `RateLimiter.Charged`).
* **The service as a transition system.** `Concurrent` lets any number of requests advance one store access at a time,
  in any order, each able to fail at any access; row locks, auto-increment counters and the clock are explicit.
  `CacheProtocol` puts the list cache beside it: each Redis command is one step, any of them may fail, pages may be
  evicted or expire, versions may be lost. The theorems hold for all runs of any length.

How the parts lean on each other:

0. `Promises` and `ListPromises` spell out, over inputs and table columns, what the sequential specification of each
   request answers, stores and leaves alone.
1. `Linearization` and `Runs` show that every concurrent run leaves the tables that its requests leave when executed
   one at a time in the order they took effect, with the answers they get there.
2. `Serial`, `Audit` and `Safety` prove, over all sequences of requests executed one at a time, that the audit log
   replays and can be undone, and that memberships, assignees, completion times and authorship are in order. By 1 this
   holds in every reachable state of the concurrent service.
3. `Coherence`, `Freshness`, `CalmRuns` and `StaleWitness` say what a cached page can be worth under interleaving;
   `SequentialCache` says the cache is exact without it.
4. `Listing`, `Walking` and `PageWalk` treat pagination: on one table, on a table that changes between the fetches,
   and over runs, first straight from the tables and then as a client gets its pages from List. `Scenario` holds whole
   requests as building blocks for the concrete runs of `StaleWitness` and `WalkWitness`. `Analytics` characterizes two
   reports. `TokenBucket` and `RateLimiter` treat the rate limiter, `Doubles` and `Expiry` the binary64 arithmetic of
   its key expiry.

Findings about the code, kept as it is and stated as lemmas:

* The cache is not coherent under interleaving, even when nothing fails: `StaleWitness.StaleRun` is a run in which a
  List that starts after a task was created, answered and invalidated is served a page without it. The exact condition
  over runs is in `Freshness.ServedPageIsCoherent`: a served entry has every invalidated request of its team if and
  only if its fill was undisturbed (`Freshness.FillExact` is the single step behind it). Exactness is about which
  requests the page's read had seen; a page that missed one may still show the same rows, when that request changed
  nothing the filters select. `CalmRuns.ListSeesAnsweredRequests` is the guarantee under the design's assumption,
  `Coherence.BoundedStaleness` the guarantee without any.
* A page walk shows every row that matches throughout, unless an update takes that row or a newer one out of the list
  between the first read and the last: over concurrent runs in `PageWalk.WalkDuringRun`, for a client of List in
  `PageWalk.ClientWalkShows`. `Walking.UpdateOvertakes` says exactly which update overtakes which row, and
  `WalkWitness.UpdatedWalkMisses` is a run in which a walk misses a row that way.
* Creations alone can make a client's walk miss a row too, through the cache: when a page comes from an older read than
  the page before it. `WalkWitness.CachedWalkMisses` is such a run, without failures and with undisturbed fills only.
  `PageWalk.ClientWalkShows` asks for reads in order, which `PageWalk.UncachedReadsInOrder` gives when no page is a hit;
  for reads in any order `PageWalk.ClientSeesUnlessOvertaken` and `PageWalk.ClientMissesIffOvertaken` say what is missed.
* Page products wrap for very large pages. `Listing.HasNextExact` and `Listing.ItemsExact` say exactly when HasNext and
  the items tell the truth, `Listing.HasNextWitness` and `Listing.ItemsWitness` are requests for which they do not.
* An audit row shows equal old and new values exactly when a description changed behind the 500th character only
  (`Audit.EqualValuesExact`).
* A request can report an error although it has committed: when the acknowledgement of its commit is lost, or, for
  CreateTeam, when the read back of the team fails. It is then executed like any other (`Runs.Linearizable`), but no
  list is invalidated for it.
* The script means to let a limiter's key expire seventy seconds after its last use, but computes the expiry in binary64
  and sends 71 for some limits, such as 11; the default limit of 100 gets 70 (`Expiry.ExpireExact`,
  `Expiry.BothExpiriesOccur`). Forgetting a key is harmless as long as the clock falls back by no more than what the
  expiry exceeds a full refill by: ten seconds, or eleven (`RateLimiter.ToleranceExact` for any expiry,
  `RateLimiter.ScriptToleranceExact` for the script's). The one microsecond more in these statements is the step of the
  script's clock: Redis keeps deadlines in milliseconds, and a key last used at the end of its millisecond is dropped
  one microsecond after its seconds are over.
* Status filters must be validated before keys are formed (`CacheKey.UnvalidatedStatusCollides`).

## Model

| member | source | states |
|---|---|---|
| Runs.Linearizable | internal/service/task_service.go:165-228 | Every interleaved, partly failing run leaves the tables its requests leave when executed one at a time; an answered request has the answer it gets there, or an infrastructure error, either without a trace or in place of a successful answer that got lost after the commit; no request is executed twice |
| Runs.RealTimeOrder | internal/service/task_service.go:191-228 | A request answered before another arrived comes before it in that order |
| Runs.CommitOnLockedRow | internal/store/mysql/task_repo.go:192-271 | The commit of an update overwrites the very row it locked, authorized against that row and the author's role; no update is lost although the first read was unlocked |
| Runs.InviteRunsThrough | internal/service/team_service.go:105-150 | An invitation nobody interrupts ends within three steps with the sequential service's tables and answer |
| Linearization.StepKeeps | internal/store/mysql/task_repo.go:178-274 | The invariant of locks, stale reads, pending ids and answers is kept by every step of every request, and each step changes nothing or executes exactly one request |
| Runs.ReachableSafe | internal/service/task_service.go:93-106 | In every reachable state of the concurrent service: the invite forest, members only as creators and assignees, completion times, authorized audit rows in commit order, and created <= completed <= updated <= now |
| Runs.ReachableAudit | internal/store/mysql/task_repo.go:213-271 | Between any two points of any run, the audit rows written in between replay a task's earlier row into its later one and undo it back; memberships, roles and a task's identity never change |
| Serial.AuditReplays | internal/store/mysql/task_repo.go:156-173 | The same over every sequence of requests executed one at a time, by composing the rows of single requests |
| Serial.ExecExtends | internal/store/mysql/team_repo.go:135-148 | Every request only adds: no membership, role, team or task identity ever changes, which is what makes check-then-act safe |
| Audit.UndoReplays | internal/store/mysql/task_repo.go:276-330 | Undoing linked audit rows backward recovers the state they started from |
| Audit.ConsecutiveRowsLink | internal/store/mysql/task_repo.go:276-330 | The next audit row about a field takes up, as its old value, the new value of the previous one |
| Audit.DiffReplays | internal/store/mysql/task_repo.go:286-327 | The rows of one update lead from the view of the old row to the view of the new one |
| Audit.DiffIsExact | internal/store/mysql/task_repo.go:286-327 | A field has an audit row if and only if its value changed, and never two |
| Audit.DiffRows | internal/store/mysql/task_repo.go:279-297 | Each row records the field's values before and after, the author and the time |
| Audit.ViewDetermines | internal/store/mysql/task_repo.go:357-384 | What the log records determines title, status and assignee exactly and the description up to truncation at 500 characters |
| Audit.EqualValuesExact | internal/store/mysql/task_repo.go:279-327 | An audit row of an update has equal old and new values if and only if it is about a description whose first 500 characters did not change |
| Audit.TruncationHidesChange | internal/store/mysql/task_repo.go:294-298 | There are such changes: a description of 500 characters with one more appended |
| Store.NoRowsNoChange | internal/store/mysql/task_repo.go:215-217 | There are no audit rows exactly when the patch changes nothing, so returning early loses nothing |
| Store.SecondPatchIsSilent | internal/store/mysql/task_repo.go:286-327 | Applying the same patch again changes nothing, completed_at included, and yields no rows |
| Repositories.BuildHistory | internal/store/mysql/task_repo.go:276-330 | The column-by-column mutation, comparing assignees as decimal text, yields exactly the patched row and the exact diff |
| Repositories.TaskRepository.Create | internal/store/mysql/task_repo.go:104-176 | If any of the four statements fails, nothing is committed; otherwise the stamped row and its "created" row both are, with an error if only the acknowledgement of the commit is lost |
| Repositories.InsertHistory | internal/store/mysql/task_repo.go:244-267 | The loop inserts the audit rows in order, or stops at the failing one |
| Repositories.TaskRepository.Update | internal/store/mysql/task_repo.go:178-274 | If the failing statement is one this update reaches, the tables are unchanged; otherwise the whole update of the locked, authorized row with all audit rows in order is committed (with an error if only the acknowledgement is lost), or the error of the lookup or authorization is returned |
| Repositories.TaskRepository.List | internal/store/mysql/task_repo.go:58-102 | Count and page of exactly the matching rows, newest first, with Go's wrapping offset; an error when either query fails or the offset is negative |
| Repositories.TeamRepository.AddMember | internal/store/mysql/team_repo.go:135-149 | Succeeds exactly when the team exists and the pair is not in the table yet; a second membership is a conflict, an unknown team an internal error, and both change nothing; a lost acknowledgement is an error with the row in place |
| Repositories.TeamRepository.Create | internal/store/mysql/team_repo.go:22-55 | Team and owner membership are committed together or not at all; a lost acknowledgement or a failure of the final read leaves them committed although an error is reported |
| Services.TaskService.Create | internal/service/task_service.go:73-125 | From any cache and for every failing access: if the request gets as far as that access, an error and unchanged tables, otherwise the sequential specification's tables and answer, or its tables and an error if the commit's acknowledgement is lost; an exact cache stays exact if the INCR works and no commit is lost |
| Services.TaskService.Update | internal/service/task_service.go:165-228 | The same for updates: stale read, role, assignee check, locked update with re-authorization, invalidation |
| Services.TaskService.List | internal/service/task_service.go:127-163 | From any cache, with failing version reads, GETs, SETs and database accesses in any combination: the answer and the cache afterwards, exactly; an exact cache stays exact |
| Services.TeamService.Invite | internal/service/team_service.go:105-150 | Checks in the service's order; for every failing access an error and unchanged tables if the request gets that far, otherwise exactly the specified membership or error, or the membership with an error if the acknowledgement is lost; a mail is reported only for a successful invitation |
| Services.TeamService.CreateTeam | internal/service/team_service.go:84-99 | Creates the team with its owner as specified; a failure inside the transaction leaves nothing, a lost acknowledgement or a failed read after the commit leaves the team with an error answer |
| Services.PageFromRead | internal/service/task_service.go:150-156 | The page assembled from the rows and the count is the list query's answer, wrapping product included |
| Promises.Names | internal/domain/task.go:10-23 | The statuses are "todo", "in_progress" and "done", and no other text is one |
| Promises.UpdateAnswers | internal/service/task_service.go:165-220 | Every answer of an update over its input and the tables: which check fails first and with which error, and otherwise the stored row |
| Promises.UpdateSucceeds | internal/service/task_service.go:165-220 | It succeeds exactly for a valid patch of an existing task by a member, with a member as assignee if one is given, who is owner, admin, creator, or assignee touching neither title nor assignee |
| Promises.UpdateStores | internal/store/mysql/task_repo.go:290-328 | The stored row has the trimmed title, description, status text and assignee that the patch gives, nobody for an explicit null, and the old values otherwise |
| Promises.UpdateFrame | internal/store/mysql/task_repo.go:213-241 | Id, team, creator and creation time stay, the update time moves exactly when a column changes, completed_at only with the status; no other row, team or membership changes |
| Promises.UpdateAudits | internal/store/mysql/task_repo.go:276-330 | The audit rows written are exactly, in order, those for the title, description (first 500 characters), status and assignee that changed, with old and new text |
| Promises.CreateAnswers | internal/service/task_service.go:73-120 | Every answer of a creation over its input and the tables: Validation, Forbidden, Validation for a stranger as assignee, or the stored row |
| Promises.CreateStores | internal/store/mysql/task_repo.go:104-176 | The stored row has the trimmed title, the given status or "todo", description, assignee, team, creator, both times now, and completed_at exactly for "done"; one "created" audit row is added |
| Promises.InvitePromise | internal/service/team_service.go:105-150 | Every answer of an invitation over its input and the tables, in the order of the checks, and the one membership it stores: Member unless the role text is "admin" |
| Promises.InviteSucceeds | internal/service/team_service.go:39-60 | It succeeds exactly for one way of naming a known other user who is not a member yet, by an owner (roles "", "member", "admin") or an admin (roles "", "member") |
| Promises.CreateTeamPromise | internal/service/team_service.go:84-99 | A name of 1 to 120 characters after trimming gives a team with that name, the description and the creator, who is its owner; anything else is a validation error that changes nothing |
| ListPromises.ListPromise | internal/service/task_service.go:127-136 | Every answer of a List over its filters: unknown team or status, no membership, negative offset, or the page asked for, from page 1, with 20 rows by default and 100 at most |
| ListPromises.SelectedRows | internal/store/mysql/task_repo.go:61-72 | The filters select by team, by status text if given, and by assignee if given |
| ListPromises.PageContents | internal/store/mysql/task_repo.go:58-98 | A task is on a page exactly when its columns satisfy the filters and the number of such tasks with a larger id lies between the page's bounds |
| ListPromises.PageFigures | internal/service/task_service.go:150-156 | total counts the tasks whose columns satisfy the filters, HasNext compares it with page * per_page, and the items come in descending id order |
| ListPromises.CacheServes | internal/store/rediscache/task_cache.go:33-58 | A page stored by one List is what a later List of an unchanged version gets, until the TTL is over and no longer |
| ListPromises.ArrivalPromise | internal/service/task_service.go:127-136 | Under concurrency a List is admitted by the same rules |
| Safety.InviteChain | internal/service/team_service.go:105-150 | From any member, invited_by reaches the team's creator in at most two steps |
| Safety.ForestStep | internal/service/authorization.go:11-25 | Every request keeps: one owner per team, its creator; invited_by empty only for the owner; admins invited by the owner; members invited by an owner or admin |
| Safety.PeopleStep | internal/service/task_service.go:93-106 | Every request keeps: creators and assignees of tasks are members of the task's team |
| Safety.CompletionStep | internal/store/mysql/task_repo.go:300-310 | Every request keeps: completed_at is set exactly for done tasks, to the time of the latest move into done (creation time if the status never changed) |
| Safety.LogsStep | internal/service/authorization.go:27-45 | Every request keeps: each "updated" row was written by a member who was then owner, admin, creator, or the assignee changing only status or description |
| Safety.AssigneeDuringUpdate | internal/store/mysql/task_repo.go:312-327 | Within one update the assignee row comes last, so undoing from any of its rows shows the assignee the author was checked against |
| Safety.AlwaysSafe | internal/service/task_service.go:212-220 | All of these hold after every sequence of requests |
| Coherence.BoundedStaleness | internal/service/task_service.go:138-160 | With no assumption on races, failures, evictions or lost versions, every page List answers with is the true answer at an earlier step: its own read since it started, or for a cached page one no older than the TTL plus the duration of the request that filled the entry |
| Freshness.FillExact | internal/store/rediscache/task_cache.go:52-58 | At the version read of a fill: the page, as the answer after a prefix of the executed requests, may be stored under the version just read if and only if no request of the team both took effect after the read of the page and invalidated before this read |
| Freshness.ServedPageIsCoherent | internal/store/rediscache/task_cache.go:33-50 | Over every run without lost versions: a served page is the answer after some prefix of the executed requests; the prefix has every request of the team that invalidated up to the page's version if and only if the fill was undisturbed; with a working version read that includes all that invalidated before it |
| Freshness.ListSeesEarlierRequests | internal/store/rediscache/task_cache.go:60-81 | A List that arrives after an invalidation of its team sees that request, from the database always, from the cache when the entry's fill was undisturbed |
| CalmRuns.ListSeesAnsweredRequests | internal/service/task_service.go:138-160 | When every INCR and version read succeeds, no version is lost, and no INCR of a team falls between a fill's database read and its version read, a List that starts after a Create or Update was answered sees it |
| CalmRuns.AnswerInvalidates | internal/service/task_service.go:122-124 | A request is answered with a task only in the step that invalidates the task's team |
| StaleWitness.StaleRun | internal/store/rediscache/task_cache.go:83-105 | A concrete run without any failure in which a List that started after a task was created, answered and invalidated is served a page without it |
| SequentialCache.CachedRunRefines | internal/service/task_service.go:122-163 | Over every sequence of non-overlapping requests, from any coherent cache, with working INCRs and version reads before GETs, and with GETs, SETs and version reads before SETs that may fail, the cached service gives exactly the uncached service's answers |
| SequentialCache.FreshStartRefines | internal/service/task_service.go:122-163 | In particular from empty tables and an empty Redis |
| SequentialCache.ListKeeps | internal/store/rediscache/task_cache.go:70-81 | A List keeps the cache coherent whatever fails, also when a failed version read makes it store its page under version 0 |
| SequentialCache.ListRefines | internal/service/task_service.go:127-163 | One cached List gives the database's page or error when its version read works, or while the team's version still is 0 |
| SequentialCache.WriteKeeps | internal/service/task_service.go:212-225 | A write followed by the INCR of its team restores coherence, for every team |
| TaskCaching.FillKeeps | internal/store/rediscache/task_cache.go:52-58 | Storing the current answer under the version read keeps: current entries are current answers, nothing lies under a version to come, version keys hold counters |
| TaskCaching.InvalidateKeeps | internal/store/rediscache/task_cache.go:60-64 | Raising a team's version after a write to that team keeps the same invariant for the new tables, whatever old versions hold |
| TaskCaching.TaskCache.GetList | internal/store/rediscache/task_cache.go:33-50 | A hit is the live page stored under the key of the version read, version 0 if that read fails; anything else, a failed GET included, is a miss |
| CacheKey.ListKeyInjective | internal/store/rediscache/task_cache.go:83-105 | Two list keys are equal exactly when team, version, status, assignee, page and size are |
| CacheKey.ListKeyIsNoVersionKey | internal/store/rediscache/task_cache.go:66-68 | No list key is a version key |
| CacheKey.VersionKeyInjective | internal/store/rediscache/task_cache.go:66-68 | Two teams never share a version counter |
| CacheKey.UnvalidatedStatusCollides | internal/domain/task.go:82-84 | Without the status check, a filter on a status called "all" would share the key of the unfiltered list |
| Text.TrimIsMiddle | internal/service/task_service.go:74 | Trimming cuts white space, and nothing else, from both ends |
| Text.Decimals | internal/store/mysql/task_repo.go:359-367 | Numbers print in decimal, most significant digit first, after a minus sign if negative |
| Text.ParseFormat | internal/store/mysql/task_repo.go:359-367 | Decimal printing can be read back, for every integer |
| Text.JoinInjective | internal/store/rediscache/task_cache.go:96-104 | Colon-free parts joined by colons can be told apart again, and so can their number |
| Listing.PagesPartition | internal/store/mysql/task_repo.go:83-101 | Pages 1, 2, ... while HasNext holds are the filtered list in descending id order without gap or repeat, in ceil(total / per_page) pages, at least one |
| Listing.RankIsPosition | internal/store/mysql/task_repo.go:83-89 | A matching row stands at the position given by how many matching rows have a larger id |
| Listing.HasNextIsNextNonEmpty | internal/service/task_service.go:155 | On every page of every list, HasNext tells whether the next page has rows if and only if the next page's offset does not wrap to a negative number |
| Listing.ItemsExact | internal/store/mysql/task_repo.go:83-93 | The items are the rows from (page - 1) * per_page on if and only if that product fits in 64 bits or wraps to an offset behind the list |
| Listing.ItemsWitness | internal/store/mysql/task_repo.go:93 | A valid request, page 2^60 + 1 of size 16, that shows the first page's rows |
| Listing.HasNextExact | internal/service/task_service.go:155 | HasNext means "page * per_page < total" on every total exactly when the 64-bit product does not wrap (or wraps to the largest integer) |
| Listing.HasNextWitness | internal/service/task_service.go:155 | A valid request for which HasNext holds on every table although the page lies far behind the end |
| Walking.WalkShows | internal/store/mysql/task_repo.go:83-93 | If no newer row leaves the list between two fetches, walking until HasNext is false shows every row that matches throughout |
| Walking.WalkOmitsNothing | internal/store/mysql/task_repo.go:83-93 | In particular, if the table only grows, every row that matched at the start is shown |
| Walking.MissedIffOvertaken | internal/store/mysql/task_repo.go:83-93 | While no newer rows come in, a row that matches throughout is missed if and only if it moves from behind one page to before the next between their fetches |
| Walking.UpdateOvertakes | internal/store/mysql/task_repo.go:221-241 | One update does that to a row if and only if the row was first behind the page, the updated row is newer, and the update takes it out of the list |
| PageWalk.WalkDuringRun | internal/store/mysql/task_repo.go:83-93 | Over every run of the concurrent service, pages read from the tables: a complete walk shows every row that matched at its start, unless an update in between takes that row or a newer one out of the list |
| PageWalk.ClientWalkShows | internal/service/task_service.go:138-156 | Over every run with the cache, whatever fails, expires or is lost, pages as List answers them: the same, if no page comes from an older database read than the page before it |
| PageWalk.UncachedReadsInOrder | internal/service/task_service.go:145-156 | The reads are in that order when no page is a cache hit and each is asked for after the previous one was read |
| PageWalk.ClientSeesUnlessOvertaken | internal/service/task_service.go:138-156 | Over every run with the cache and for reads in any order: a client sees every row that matched at each of its reads, unless between two reads the row moved from behind one page to before the next |
| PageWalk.ClientMissesIffOvertaken | internal/service/task_service.go:138-156 | While the row's rank does not rise from read to read, the client misses it if and only if that happened |
| WalkWitness.CachedWalkMisses | internal/service/task_service.go:138-142 | A concrete run without failures, with undisturbed fills and creations only, in which a client's walk gets page 2 from the cache, older than its page 1, and misses a task that matches at both reads |
| WalkWitness.UpdatedWalkMisses | internal/service/task_service.go:165-228 | A concrete run without failures in which both pages come from the database, a task is marked done in between, and the walk misses another task that matches at both reads |
| Analytics.NoInvalidAssignees | internal/store/mysql/analytics_repo.go:99-121 | The invalid-assignee report is empty for everybody in every reachable state |
| Analytics.TopCreatorsExact | internal/store/mysql/analytics_repo.go:56-89 | Over the columns of the task table: a user is reported at rank k for a team of the caller exactly when k <= 3, the user created tasks there since the given time, as many as shown, and k - 1 users created more, or as many with a smaller id |
| Analytics.InvalidIdsExact | internal/store/mysql/analytics_repo.go:102-116 | The report names a task exactly when the caller is in its team and its assignee is not |
| Analytics.TopCreatorsOrdered | internal/store/mysql/analytics_repo.go:89 | The report is ordered by team and rank |
| Domain.CanInviteWithRole | internal/service/authorization.go:11-25 | Owners may hand out any role but ownership, admins plain membership only; handing out ownership is a validation error for those who may invite |
| Domain.CanUpdateTask | internal/service/authorization.go:27-45 | Allowed exactly for owners, admins, the creator, and the assignee when neither title nor assignee is touched |
| Domain.ValidatePatch | internal/service/task_service.go:165-189 | Accepted exactly when some field is given, a given status is known, and a given title is non-empty and within the limit once trimmed; the accepted patch has the trimmed title, the same status, and description and assignee as given; everything else is a validation error |
| TokenBucket.ClosedForm | internal/ratelimit/redis_limiter.go:42-50 | The level before a request is the minimum, over all earlier requests, of a full bucket there plus the refill minus the tokens spent since, for every sequence of clock readings |
| TokenBucket.LevelStep | internal/ratelimit/redis_limiter.go:37-50 | From request to request a token costs sixty million units, limit units come per microsecond up to the capacity, and a clock that stands still or goes back brings nothing |
| RateLimiter.AvailableExact | internal/ratelimit/redis_limiter.go:33-43 | What one script run finds: a full bucket for a missing key, else what is left plus the refill of the time that has passed, if any |
| TokenBucket.AdmitsExactlyWithinWindows | internal/ratelimit/redis_limiter.go:42-50 | A request is admitted exactly when, with it, every window ending now stays within the limit plus the window's refill |
| TokenBucket.AtMostLimitPerMinute | internal/ratelimit/redis_limiter.go:61 | Any window of T seconds admits at most limit + limit * T / 60 requests when the clock does not go back |
| TokenBucket.AdmitsTheMost | internal/ratelimit/redis_limiter.go:47-50 | No rule that respects the bucket has admitted more requests at any time |
| RateLimiter.RedisLimiter.Allow | internal/ratelimit/redis_limiter.go:24-56 | One script run decides by the tokens available and stores what is left, the time, and the deadline in milliseconds that its computed expiry gives |
| RateLimiter.ForgettingIsSafe | internal/ratelimit/redis_limiter.go:37-53 | For every expiry of at least sixty seconds: while the clock falls below an earlier reading by no more than the excess over sixty seconds, the limiter whose idle keys expire answers every request of every key as one that never forgets |
| RateLimiter.ToleranceExact | internal/ratelimit/redis_limiter.go:42-53 | For every limit and every such expiry: all runs whose clock falls back by at most a given amount are decided alike if and only if that amount is at most the excess (plus the clock's smallest step) |
| RateLimiter.ScriptToleranceExact | internal/ratelimit/redis_limiter.go:53 | For the expiry the script computes, that excess is ten seconds, or eleven exactly where the quotient rounds up |
| RateLimiter.FullAfterAMinute | internal/ratelimit/redis_limiter.go:42-43 | An idle bucket is sure to be full, whatever was left in it, if and only if sixty seconds have passed |
| RateLimiter.ClockGoingBackBreaksIt | internal/ratelimit/redis_limiter.go:42-53 | For every limit, expiry and larger fall of the clock, a run within that fall in which the limiter that forgets admits a request the other refuses |
| Expiry.ExpireExact | internal/ratelimit/redis_limiter.go:53 | In binary64 arithmetic the script sends 70 seconds, or 71 if and only if rounding the refill rate lost enough for the quotient to round above sixty |
| Expiry.BothExpiriesOccur | internal/ratelimit/redis_limiter.go:53-61 | A limit of 100 gives 70 seconds, a limit of 11 gives 71 |
| Doubles.ScaleFound | internal/ratelimit/redis_limiter.go:61 | A binary64 quotient is taken at the first power of two that fills its 53-bit significand |
| Doubles.Nearest | internal/ratelimit/redis_limiter.go:61 | Its significand is the nearest integer there |

## Left out

- HTTP handlers, router, middleware (including the limiter's fail-open path), configuration, metrics, logging: plumbing around the core.
- JWT, bcrypt and credential validation: cryptography and text patterns from other libraries.
- The email client and its circuit breaker: whether the mail could be sent is an arbitrary boolean.
- The users table: who an invitation names is a parameter of the request, so the lower-casing of the email before that lookup is not modelled either.
- JSON: cached pages are values, marshalling and unmarshalling are taken to be inverse.
- Floating point in the Lua script: the expiry is computed in binary64, for limits up to 2^53 that convert exactly; tokens and time are exact scaled integers (60,000,000 units to a token, microseconds), and TIME and the deadlines are read off one clock.
- Timestamps: a clock reading stands for the time after truncation to seconds; the sub-second part plays no role in the store.
- SQL engine internals: row locks, unique keys and the atomicity of a commit are step semantics; collation, column sizes, cascades and deletes by hand are not modelled.
- Count and select of the list query are one snapshot, as are the reads behind an invitation's decision in `Concurrent`.
- An OFFSET whose 64-bit product is negative makes the query fail; what exactly MySQL reports then is not part of the repository.
- A Redis failure in the class model leaves data as it was; a command that took effect although its answer was lost is treated as successful.
- Freshness.ServedPageIsCoherent: assumes that no team's version is lost, because after a loss version numbers start again and old entries come back to life; `Coherence.BoundedStaleness` holds even then.
- Listing.PagesPartition: assumes that the number of rows plus one page fits in 64 bits, because the page product wraps beyond that.
- Ids and counters are unbounded integers, and strings are sequences of characters; only the page products wrap.
- Statuses and roles are typed once they have been validated; the free text exists in requests only.
- TaskService.History and its query: a page of the stored rows, newest first; the order of row ids it relies on is part of `Runs.ReachableSafe`.
- TeamSummary, ListByUser, team descriptions' timestamps: plain joins and columns no property here depends on.
- Interleaving: the classes are used by one request at a time; concurrency is treated in `Concurrent` and `CacheProtocol`, on values.
