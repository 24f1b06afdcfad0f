/** The Redis keys of the list cache: one per team, version and filters, and never confused with a version key. */
module CacheKey {
  import opened Wrappers
  import opened Domain
  import Text

  function StatusPart(status: string): string {
    if status == "" then "all" else status
  }

  function AssigneePart(assignee: Option<int>): (part: string)
    ensures ':' !in part
    ensures 'n' in part <==> assignee.None?
  {
    assert "none"[0] == 'n';
    match assignee case None => "none" case Some(id) => Text.FormatInt(id)
  }

  /** The ':'-separated parts of a list key; the version is whatever text Redis holds for it. */
  function ListParts(version: string, f: Filters): seq<string> {
    ["teams", Text.FormatInt(f.teamId), "tasks", "v" + version, "status", StatusPart(f.status),
     "assignee", AssigneePart(f.assigneeId), "page", Text.FormatInt(f.page), "size", Text.FormatInt(f.perPage)]
  }

  function ListKey(version: string, f: Filters): string {
    Text.Join(ListParts(version, f))
  }

  function VersionKey(team: int): string {
    Text.Join(["teams", Text.FormatInt(team), "tasks", "version"])
  }

  lemma StatusPartInjective(a: string, b: string)
    requires (a == "" || StatusOf(a).Some?) && (b == "" || StatusOf(b).Some?)
    requires StatusPart(a) == StatusPart(b)
    ensures a == b
  {
  }

  lemma AssigneePartInjective(a: Option<int>, b: Option<int>)
    requires AssigneePart(a) == AssigneePart(b)
    ensures a == b
  {
    if a.Some? && b.Some? {
      Text.FormatInjective(a.value, b.value);
    }
  }

  lemma PartsColonFree(version: string, f: Filters)
    requires f.Valid() && ':' !in version
    ensures forall i | 0 <= i < |ListParts(version, f)| :: ':' !in ListParts(version, f)[i]
  {
  }

  lemma PartsInjective(v: string, f: Filters, w: string, g: Filters)
    requires f.Valid() && g.Valid() && ListParts(v, f) == ListParts(w, g)
    ensures v == w && f == g
  {
    var p, q := ListParts(v, f), ListParts(w, g);
    assert p[1] == q[1] && p[3] == q[3] && p[5] == q[5] && p[7] == q[7] && p[9] == q[9] && p[11] == q[11];
    Text.FormatInjective(f.teamId, g.teamId);
    assert v == p[3][1..] == q[3][1..] == w;
    StatusPartInjective(f.status, g.status);
    AssigneePartInjective(f.assigneeId, g.assigneeId);
    Text.FormatInjective(f.page, g.page);
    Text.FormatInjective(f.perPage, g.perPage);
  }

  /** Two validated requests share a key only if they agree on team, version and every filter. */
  lemma ListKeyInjective(v: string, f: Filters, w: string, g: Filters)
    requires f.Valid() && g.Valid() && ':' !in v && ':' !in w
    ensures ListKey(v, f) == ListKey(w, g) <==> v == w && f == g
  {
    if ListKey(v, f) == ListKey(w, g) {
      PartsColonFree(v, f);
      PartsColonFree(w, g);
      Text.JoinInjective(ListParts(v, f), ListParts(w, g));
      PartsInjective(v, f, w, g);
    }
  }

  /** A version counter is never stored under a list key. */
  lemma ListKeyIsNoVersionKey(v: string, f: Filters, team: int)
    requires f.Valid() && ':' !in v
    ensures ListKey(v, f) != VersionKey(team)
  {
    var p, q := ListParts(v, f), ["teams", Text.FormatInt(team), "tasks", "version"];
    PartsColonFree(v, f);
    assert |p| != |q|;
    if Text.Join(p) == Text.Join(q) {
      Text.JoinInjective(p, q);
    }
  }

  lemma VersionKeyInjective(a: int, b: int)
    ensures VersionKey(a) == VersionKey(b) <==> a == b
  {
    var p, q := ["teams", Text.FormatInt(a), "tasks", "version"], ["teams", Text.FormatInt(b), "tasks", "version"];
    if Text.Join(p) == Text.Join(q) {
      Text.JoinInjective(p, q);
      assert p[1] == q[1];
      Text.FormatInjective(a, b);
    }
  }

  /** Validation of the status matters: the unfiltered list and a filter on a status called "all" share their key. */
  lemma UnvalidatedStatusCollides(v: string, f: Filters)
    requires f.status == ""
    ensures ListKey(v, f) == ListKey(v, f.(status := "all")) && !f.(status := "all").Valid()
  {
  }
}
