/** The list cache as an object over Redis, used by one request at a time, and the invariant that makes it exact. */
module TaskCaching {
  import opened Wrappers
  import opened Domain
  import opened Listing
  import opened CacheKey
  import Text

  /** What Redis holds under a key: a counter made by INCR, or a page with its deadline. */
  datatype Value = Counter(n: nat) | Stored(page: Page, expireAt: int)

  type Data = map<string, Value>

  function VersionNow(data: Data, team: int): nat {
    if VersionKey(team) in data && data[VersionKey(team)].Counter? then data[VersionKey(team)].n else 0
  }

  function KeyAt(version: nat, f: Filters): string {
    ListKey(Text.FormatInt(version), f)
  }

  /** The version as a read of its counter gives it; a failed read counts as version 0. */
  function VersionRead(data: Data, team: int, ok: bool): nat {
    if ok then VersionNow(data, team) else 0
  }

  function KeyRead(data: Data, f: Filters, ok: bool): string {
    KeyAt(VersionRead(data, f.teamId, ok), f)
  }

  function Lookup(data: Data, key: string, now: int): Option<Page> {
    if key in data && data[key].Stored? && now <= data[key].expireAt then Some(data[key].page) else None
  }

  function Filled(data: Data, f: Filters, ok: bool, page: Page, expireAt: int): Data {
    data[KeyRead(data, f, ok) := Stored(page, expireAt)]
  }

  function Invalidated(data: Data, team: int): Data {
    data[VersionKey(team) := Counter(VersionNow(data, team) + 1)]
  }

  // ---------- coherence ----------

  ghost predicate EntryOk(data: Data, tasks: Table, f: Filters, n: nat)
    requires f.IsNormalized()
  {
    KeyAt(n, f) in data ==>
      var current := VersionNow(data, f.teamId);
      && data[KeyAt(n, f)].Stored? && n <= current && OffsetOk(f)
      && (n == current ==> data[KeyAt(n, f)].page == Query(tasks, f))
  }

  /** Version keys hold counters; nothing is stored under a version still to come; what is stored under the current
      version is the answer the tables give now. Entries of earlier versions may hold any page. */
  ghost predicate Coherent(data: Data, tasks: Table) {
    && (forall team :: VersionKey(team) in data ==> data[VersionKey(team)].Counter?)
    && (forall f: Filters, n: nat | f.Valid() && f.IsNormalized() :: EntryOk(data, tasks, f, n))
  }

  /** A hit is what the database would answer, if the version read worked (or the version still is 0). */
  lemma HitIsExact(data: Data, tasks: Table, f: Filters, ok: bool, now: int)
    requires Coherent(data, tasks) && f.Valid() && f.IsNormalized() && (ok || VersionNow(data, f.teamId) == 0)
    ensures var hit := Lookup(data, KeyRead(data, f, ok), now);
            hit.Some? ==> OffsetOk(f) && hit.value == Query(tasks, f)
  {
    assert EntryOk(data, tasks, f, VersionNow(data, f.teamId));
  }

  lemma KeyAtInjective(n: nat, f: Filters, m: nat, g: Filters)
    requires f.Valid() && g.Valid() && KeyAt(n, f) == KeyAt(m, g)
    ensures n == m && f == g
  {
    ListKeyInjective(Text.FormatInt(n), f, Text.FormatInt(m), g);
    Text.FormatInjective(n, m);
  }

  /** Storing a page touches no version counter. */
  lemma FillKeepsVersions(data: Data, f: Filters, ok: bool, page: Page, expireAt: int, team: int)
    requires f.Valid()
    ensures var after := Filled(data, f, ok, page, expireAt);
            && (VersionKey(team) in after <==> VersionKey(team) in data)
            && (VersionKey(team) in data ==> after[VersionKey(team)] == data[VersionKey(team)])
            && VersionNow(after, team) == VersionNow(data, team)
  {
    ListKeyIsNoVersionKey(Text.FormatInt(VersionRead(data, f.teamId, ok)), f, team);
  }

  /** Storing the database's answer keeps the cache coherent, even under version 0 after a failed version read. */
  lemma FillKeeps(data: Data, tasks: Table, f: Filters, ok: bool, expireAt: int)
    requires Coherent(data, tasks) && f.Valid() && f.IsNormalized() && OffsetOk(f)
    ensures Coherent(Filled(data, f, ok, Query(tasks, f), expireAt), tasks)
  {
    var page := Query(tasks, f);
    var after := Filled(data, f, ok, page, expireAt);
    forall team ensures VersionKey(team) in after ==> after[VersionKey(team)].Counter? {
      FillKeepsVersions(data, f, ok, page, expireAt, team);
    }
    forall g: Filters, n: nat | g.Valid() && g.IsNormalized() ensures EntryOk(after, tasks, g, n) {
      FillKeepsVersions(data, f, ok, page, expireAt, g.teamId);
      assert EntryOk(data, tasks, g, n);
      if KeyAt(n, g) == KeyRead(data, f, ok) {
        KeyAtInjective(n, g, VersionRead(data, f.teamId, ok), f);
      }
    }
  }

  /** INCR touches no page, and the counter of no other team. */
  lemma InvalidateFrame(data: Data, team: int, g: Filters, n: nat)
    requires g.Valid()
    ensures KeyAt(n, g) in Invalidated(data, team) <==> KeyAt(n, g) in data
    ensures KeyAt(n, g) in data ==> Invalidated(data, team)[KeyAt(n, g)] == data[KeyAt(n, g)]
    ensures VersionNow(Invalidated(data, team), g.teamId)
         == VersionNow(data, g.teamId) + if g.teamId == team then 1 else 0
  {
    ListKeyIsNoVersionKey(Text.FormatInt(n), g, team);
    VersionKeyInjective(team, g.teamId);
  }

  /** Only lists of the given team may answer differently. */
  ghost predicate SameElsewhere(before: Table, after: Table, team: int) {
    forall f: Filters | f.IsNormalized() && f.teamId != team :: Query(before, f) == Query(after, f)
  }

  /** A write to one team's tasks followed by the INCR of that team keeps the cache coherent. */
  lemma InvalidateKeeps(data: Data, before: Table, after: Table, team: int)
    requires Coherent(data, before) && SameElsewhere(before, after, team)
    ensures Coherent(Invalidated(data, team), after)
  {
    var bumped := Invalidated(data, team);
    forall t ensures VersionKey(t) in bumped ==> bumped[VersionKey(t)].Counter? {
    }
    forall g: Filters, n: nat | g.Valid() && g.IsNormalized() ensures EntryOk(bumped, after, g, n) {
      InvalidateFrame(data, team, g, n);
      assert EntryOk(data, before, g, n);
    }
  }

  lemma SameMatches(a: Table, b: Table, f: Filters)
    requires MatchingIds(a, f) == MatchingIds(b, f)
    requires forall i | i in MatchingIds(a, f) :: a[i] == b[i]
    ensures Rows(a, f) == Rows(b, f)
  {
    var ids := SortDesc(MatchingIds(a, f));
    assert forall i | 0 <= i < |ids| :: ids[i] in ids;
  }

  lemma OtherRows(tasks: Table, task: Task, f: Filters)
    requires task.id in tasks ==> tasks[task.id].teamId == task.teamId
    requires f.teamId != task.teamId
    ensures Rows(tasks, f) == Rows(tasks[task.id := task], f)
  {
    var after := tasks[task.id := task];
    assert task.id !in MatchingIds(tasks, f) && task.id !in MatchingIds(after, f);
    assert MatchingIds(tasks, f) == MatchingIds(after, f);
    SameMatches(tasks, after, f);
  }

  /** Writing one row changes no list of another team. */
  lemma WriteIsLocal(tasks: Table, task: Task)
    requires task.id in tasks ==> tasks[task.id].teamId == task.teamId
    ensures SameElsewhere(tasks, tasks[task.id := task], task.teamId)
  {
    forall f: Filters | f.IsNormalized() && f.teamId != task.teamId
      ensures Query(tasks, f) == Query(tasks[task.id := task], f)
    {
      OtherRows(tasks, task, f);
    }
  }

  // ---------- the cache object ----------

  class TaskCache {
    const ttl: int
    var data: Data

    constructor (ttl: int)
      ensures this.ttl == ttl && data == map[]
    {
      this.ttl := ttl;
      data := map[];
    }

    /** A missing counter reads as version 0, and so does one that cannot be read. */
    method Version(team: int, ok: bool) returns (version: string)
      ensures version == Text.FormatInt(VersionRead(data, team, ok))
    {
      var key := VersionKey(team);
      if ok && key in data && data[key].Counter? {
        return Text.FormatInt(data[key].n);
      }
      return "0";
    }

    method Key(f: Filters, ok: bool) returns (key: string)
      ensures key == KeyRead(data, f, ok)
    {
      var version := Version(f.teamId, ok);
      key := ListKey(version, f);
    }

    /** A failed GET counts as a miss, as does a page past its deadline. */
    method GetList(f: Filters, now: int, versionOk: bool, ok: bool) returns (hit: Option<Page>)
      ensures hit == if ok then Lookup(data, KeyRead(data, f, versionOk), now) else None
    {
      var key := Key(f, versionOk);
      if ok && key in data && data[key].Stored? && now <= data[key].expireAt {
        hit := Some(data[key].page);
      } else {
        hit := None;
      }
    }

    /** A failed SET is only logged. */
    method SetList(f: Filters, page: Page, now: int, versionOk: bool, ok: bool)
      modifies this
      ensures data == if ok then Filled(old(data), f, versionOk, page, now + ttl) else old(data)
    {
      var key := Key(f, versionOk);
      if ok {
        data := data[key := Stored(page, now + ttl)];
      }
    }

    /** A failed INCR is only logged. */
    method InvalidateTeam(team: int, ok: bool)
      modifies this
      ensures data == if ok then Invalidated(old(data), team) else old(data)
    {
      var key := VersionKey(team);
      if !ok {
        return;
      }
      if key in data && data[key].Counter? {
        data := data[key := Counter(data[key].n + 1)];
      } else {
        data := data[key := Counter(1)];
      }
    }
  }
}
