/** Reading a task's past out of its audit rows: forward replay, backward undo, and the link between rows. */
module Audit {
  import opened Wrappers
  import opened Domain
  import opened Store
  import Text

  /** What the audit rows can say about a task: one text per audited column. */
  datatype View = View(
    title: Option<string>, description: Option<string>, status: Option<string>, assignee: Option<string>) {
    function Get(f: Field): Option<string> {
      match f
      case TitleField => title
      case DescriptionField => description
      case StatusField => status
      case AssigneeField => assignee
    }

    function Set(f: Field, v: Option<string>): (r: View)
      ensures r.Get(f) == v && forall g | g != f :: r.Get(g) == Get(g)
      ensures v == Get(f) ==> r == this
    {
      match f
      case TitleField => this.(title := v)
      case DescriptionField => this.(description := v)
      case StatusField => this.(status := v)
      case AssigneeField => this.(assignee := v)
    }
  }

  function ViewOf(task: Task): View {
    View(Column(task, TitleField), Column(task, DescriptionField), Column(task, StatusField),
        Column(task, AssigneeField))
  }

  /** The view determines title, status and assignee exactly, and the description up to truncation. */
  lemma ViewDetermines(a: Task, b: Task)
    ensures ViewOf(a) == ViewOf(b) <==>
      && a.title == b.title && a.status == b.status && a.assigneeId == b.assigneeId
      && Text.Truncate(a.description, MAX_HISTORY_VALUE) == Text.Truncate(b.description, MAX_HISTORY_VALUE)
  {
    assert StatusOf(StatusText(a.status)) == Some(a.status) && StatusOf(StatusText(b.status)) == Some(b.status);
    if a.assigneeId.Some? && b.assigneeId.Some? && ViewOf(a) == ViewOf(b) {
      Text.FormatInjective(a.assigneeId.value, b.assigneeId.value);
    }
  }

  function Redo(v: View, c: Change): View {
    if c.field.Some? then v.Set(c.field.value, c.newValue) else v
  }

  function Revert(v: View, c: Change): View {
    if c.field.Some? then v.Set(c.field.value, c.oldValue) else v
  }

  predicate TakesUp(v: View, c: Change) {
    c.field.Some? ==> v.Get(c.field.value) == c.oldValue
  }

  function Replay(v: View, rows: seq<Change>): View
    decreases |rows|
  {
    if rows == [] then v else Replay(Redo(v, rows[0]), rows[1..])
  }

  function Undo(v: View, rows: seq<Change>): View
    decreases |rows|
  {
    if rows == [] then v else Revert(Undo(v, rows[1..]), rows[0])
  }

  /** Every row starts from the value the rows before it left behind. */
  predicate Linked(v: View, rows: seq<Change>)
    decreases |rows|
  {
    rows != [] ==> TakesUp(v, rows[0]) && Linked(Redo(v, rows[0]), rows[1..])
  }

  lemma {:induction false} ReplayAppend(v: View, a: seq<Change>, b: seq<Change>)
    ensures Replay(v, a + b) == Replay(Replay(v, a), b)
    ensures Linked(v, a + b) <==> Linked(v, a) && Linked(Replay(v, a), b)
    decreases |a|
  {
    if a == [] {
      assert a + b == b;
    } else {
      ReplayAppend(Redo(v, a[0]), a[1..], b);
      assert (a + b)[1..] == a[1..] + b;
    }
  }

  lemma {:induction false} UndoAppend(v: View, a: seq<Change>, b: seq<Change>)
    ensures Undo(v, a + b) == Undo(Undo(v, b), a)
  {
    if a == [] {
      assert a + b == b;
    } else {
      UndoAppend(v, a[1..], b);
      assert (a + b)[1..] == a[1..] + b;
    }
  }

  /** Undoing linked rows backward recovers the state they started from. */
  lemma {:induction false} UndoReplays(v: View, rows: seq<Change>)
    requires Linked(v, rows)
    ensures Undo(Replay(v, rows), rows) == v
    decreases |rows|
  {
    if rows != [] {
      UndoReplays(Redo(v, rows[0]), rows[1..]);
    }
  }

  /** Among linked rows, the next row about a column takes up the value the previous one left. */
  lemma ConsecutiveRowsLink(v: View, rows: seq<Change>, i: nat, j: nat, f: Field)
    requires Linked(v, rows) && i < j < |rows|
    requires rows[i].field == Some(f) == rows[j].field
    requires forall k | i < k < j :: rows[k].field != Some(f)
    ensures rows[i].newValue == rows[j].oldValue
  {
    ReplayAppend(v, rows[..i], rows[i..]);
    assert rows[..i] + rows[i..] == rows;
    var here := Redo(Replay(v, rows[..i]), rows[i]);
    assert rows[i..][1..] == rows[i + 1..];
    ValueSurvives(here, rows[i + 1..], j - i - 1, f);
  }

  lemma {:induction false} ValueSurvives(v: View, rows: seq<Change>, j: nat, f: Field)
    requires Linked(v, rows) && j < |rows| && rows[j].field == Some(f)
    requires forall k | 0 <= k < j :: rows[k].field != Some(f)
    ensures v.Get(f) == rows[j].oldValue
    decreases j
  {
    if j > 0 {
      ValueSurvives(Redo(v, rows[0]), rows[1..], j - 1, f);
    }
  }

  // ---------- the rows of one update ----------

  function Stage(before: Task, after: Task, done: nat): Task {
    before.(title := if done >= 1 then after.title else before.title,
            description := if done >= 2 then after.description else before.description,
            status := if done >= 3 then after.status else before.status,
            assigneeId := if done >= 4 then after.assigneeId else before.assigneeId)
  }

  lemma RowForAdvances(before: Task, after: Task, f: Field, actor: int, now: int, done: nat)
    requires (done, f) in {(0, TitleField), (1, DescriptionField), (2, StatusField), (3, AssigneeField)}
    ensures var rows, v := RowFor(before, after, f, actor, now), ViewOf(Stage(before, after, done));
            Linked(v, rows) && Replay(v, rows) == ViewOf(Stage(before, after, done + 1))
  {
    var rows := RowFor(before, after, f, actor, now);
    if rows != [] {
      assert rows[1..] == [];
    }
  }

  /** The rows of an update lead from the old row's view to the new row's view. */
  lemma DiffReplays(before: Task, after: Task, actor: int, now: int)
    ensures Linked(ViewOf(before), Diff(before, after, actor, now))
    ensures Replay(ViewOf(before), Diff(before, after, actor, now)) == ViewOf(after)
  {
    var v := ViewOf(before);
    var a, b := RowFor(before, after, TitleField, actor, now), RowFor(before, after, DescriptionField, actor, now);
    var c, d := RowFor(before, after, StatusField, actor, now), RowFor(before, after, AssigneeField, actor, now);
    RowForAdvances(before, after, TitleField, actor, now, 0);
    RowForAdvances(before, after, DescriptionField, actor, now, 1);
    RowForAdvances(before, after, StatusField, actor, now, 2);
    RowForAdvances(before, after, AssigneeField, actor, now, 3);
    ReplayAppend(v, a, b);
    ReplayAppend(v, a + b, c);
    ReplayAppend(v, a + b + c, d);
  }

  /** Exactness of the diff: a column has a row if and only if it changed, and never two. */
  lemma DiffIsExact(before: Task, after: Task, actor: int, now: int, f: Field)
    ensures var rows := Diff(before, after, actor, now);
            && (Differs(before, after, f) <==> exists row :: row in rows && row.field == Some(f))
            && (forall i, j | 0 <= i < j < |rows| :: rows[i].field != rows[j].field)
  {
    if Differs(before, after, f) {
      assert RowFor(before, after, f, actor, now)[0] in Diff(before, after, actor, now);
    }
  }

  /** Each of these rows records the values before and after, by whom and when. */
  lemma DiffRows(before: Task, after: Task, actor: int, now: int)
    ensures forall row | row in Diff(before, after, actor, now) ::
      && row.field.Some? && row.action == Updated && row.changedBy == actor && row.at == now
      && row.oldValue == Column(before, row.field.value) && row.newValue == Column(after, row.field.value)
  {
  }

  /** A row shows equal old and new values exactly when it is about a description whose change lies behind the cut. */
  lemma EqualValuesExact(before: Task, after: Task, actor: int, now: int, row: Change)
    requires row in Diff(before, after, actor, now)
    ensures row.oldValue == row.newValue <==>
      && row.field == Some(DescriptionField)
      && Text.Truncate(before.description, MAX_HISTORY_VALUE) == Text.Truncate(after.description, MAX_HISTORY_VALUE)
  {
    assert StatusOf(StatusText(before.status)) == Some(before.status) &&
        StatusOf(StatusText(after.status)) == Some(after.status);
    if row.field == Some(AssigneeField) && before.assigneeId.Some? && after.assigneeId.Some? &&
        row.oldValue == row.newValue {
      Text.FormatInjective(before.assigneeId.value, after.assigneeId.value);
    }
  }

  /** There are such changes: one more character behind the cut. */
  lemma TruncationHidesChange(before: Task, actor: int, now: int)
    requires |before.description| == MAX_HISTORY_VALUE
    ensures var after := before.(description := before.description + "!");
            var rows := Diff(before, after, actor, now);
            |rows| == 1 && rows[0].field == Some(DescriptionField) && rows[0].oldValue == rows[0].newValue
  {
  }
}
