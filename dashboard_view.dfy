/** The logic of components/dashboard.tsx: which todo is the focus and
    which are listed below it, the comma-separated tag field of the edit
    form, the greeting, the toggle and edit patches, and the overdue mark. */
module DashboardView {
  import opened Basics
  import opened Types
  import Text
  import Lists
  import Store
  import Metrics

  // ---------------------------------------------------------------------
  // Focus and other todos

  /** A todo marked as focus that is not done yet. */
  predicate IsOpenFocus(t: Todo) {
    t.isFocus && !t.completed
  }

  /** `focusTodo`: the first open focus todo. */
  function FocusTodo(todos: seq<Todo>): (r: Option<Todo>)
    ensures r.None? <==> forall i :: 0 <= i < |todos| ==> !IsOpenFocus(todos[i])
    ensures r.Some? ==> r.value in todos && IsOpenFocus(r.value)
  {
    Lists.Find(todos, IsOpenFocus)
  }

  /** The condition of `otherTodos`: not done, and not the focus todo (a
      focus todo is left out only when it carries the focus todo's id). */
  function KeptBesides(focus: Option<Todo>): Todo -> bool {
    (t: Todo) => !t.completed && (!t.isFocus || focus.None? || t.id != focus.value.id)
  }

  /** `otherTodos`. */
  function OtherTodos(todos: seq<Todo>): seq<Todo> {
    Lists.Filter(todos, KeptBesides(FocusTodo(todos)))
  }

  /** `t` carries the id of the focus todo, if there is one. */
  predicate SameId(focus: Option<Todo>, t: Todo) {
    focus.Some? && t.id == focus.value.id
  }

  /** The focus todo is the first one that qualifies. */
  lemma FocusIsFirst(todos: seq<Todo>)
    ensures FocusTodo(todos).Some? ==>
      var i := Lists.IndexWhere(todos, IsOpenFocus);
      0 <= i && todos[i] == FocusTodo(todos).value &&
      forall j :: 0 <= j < i ==> !IsOpenFocus(todos[j])
  {
  }

  /** The list below the focus card holds no completed todo and never the
      focus todo, and holds every other open todo, in the original order. */
  lemma OtherTodosAreTheRest(todos: seq<Todo>)
    ensures forall t :: t in OtherTodos(todos) ==> !t.completed
    ensures FocusTodo(todos).Some? ==> FocusTodo(todos).value !in OtherTodos(todos)
    ensures forall t :: t in todos && !t.completed && !SameId(FocusTodo(todos), t) ==> t in OtherTodos(todos)
    ensures Lists.Subsequence(OtherTodos(todos), todos)
  {
    Lists.FilterSubsequence(todos, KeptBesides(FocusTodo(todos)));
  }

  /** Without an open focus todo every open todo is listed. */
  lemma NoFocusListsAllOpen(todos: seq<Todo>)
    requires forall i :: 0 <= i < |todos| ==> !todos[i].completed
    requires FocusTodo(todos).None?
    ensures OtherTodos(todos) == todos
  {
    Lists.FilterKeepsAll(todos, KeptBesides(None));
  }

  // ---------------------------------------------------------------------
  // Tags

  /** A tag the edit form can round-trip: non-empty, trimmed, without a comma. */
  predicate IsCleanTag(t: string) {
    t != "" && Text.IsTrimmed(t) && ',' !in t
  }

  /** Every piece trimmed. */
  function TrimAll(xs: seq<string>): (r: seq<string>)
    ensures |r| == |xs|
    ensures forall i :: 0 <= i < |xs| ==> r[i] == Text.Trim(xs[i])
  {
    seq(|xs|, i requires 0 <= i < |xs| => Text.Trim(xs[i]))
  }

  predicate NonEmpty(t: string) {
    t != ""
  }

  /** `tags.split(",").map((t) => t.trim()).filter((t) => t)`. */
  function ParseTags(s: string): (r: seq<string>)
    ensures forall t :: t in r ==> t != "" && Text.IsTrimmed(t)
  {
    Lists.Filter(TrimAll(Text.Split(s, ',')), NonEmpty)
  }

  /** `todo.tags.join(", ")`. */
  function JoinTags(tags: seq<string>): string {
    Text.Join(tags, ", ")
  }

  /** Opening the edit form and saving it keeps clean tags as they were. */
  lemma TagsRoundTrip(tags: seq<string>)
    requires forall i :: 0 <= i < |tags| ==> IsCleanTag(tags[i])
    ensures ParseTags(JoinTags(tags)) == tags
  {
    if |tags| == 0 {
      assert Text.Split("", ',') == [""];
    } else {
      Text.SplitJoinSpaced(tags, ',');
      var pieces := Text.Split(JoinTags(tags), ',');
      forall i | 0 <= i < |tags| ensures Text.Trim(pieces[i]) == tags[i] {
        if i == 0 {
          Text.TrimTrimmed(tags[0]);
        } else {
          Text.TrimAfterSpace(tags[i]);
        }
      }
      assert TrimAll(pieces) == tags;
      Lists.FilterKeepsAll(tags, NonEmpty);
    }
  }

  // ---------------------------------------------------------------------
  // Greeting

  /** `getGreeting` for the local hour. */
  function Greeting(hour: int): (r: string)
    ensures r == "早安" <==> hour < 12
    ensures r == "午安" <==> 12 <= hour < 18
    ensures r == "晚安" <==> 18 <= hour
  {
    if hour < 12 then "早安" else if hour < 18 then "午安" else "晚安"
  }

  // ---------------------------------------------------------------------
  // Patches sent to the store

  /** `{ completed: !completed }` of `handleToggleTodo`. */
  function TogglePatch(completed: bool): (p: Store.TodoPatch)
    ensures p.completed == Some(!completed)
  {
    Store.TodoPatch(None, None, None, Some(!completed), None, None, None, None)
  }

  /** Toggling changes only the completed flag, and toggling twice restores the todo. */
  lemma ToggleTwice(t: Todo)
    ensures TogglePatch(t.completed).Apply(t) == t.(completed := !t.completed)
    ensures var u := TogglePatch(t.completed).Apply(t); TogglePatch(u.completed).Apply(u) == t
  {
  }

  /** The edit form; `dueDate` is the picked calendar day. */
  datatype EditForm = EditForm(title: string, dueDate: Day, tags: string, isFocus: bool)

  /** `handleStartEdit`: the form filled from a todo. */
  function StartEdit(t: Todo): EditForm {
    EditForm(t.title, Metrics.DayOf(t.dueDate), JoinTags(t.tags), t.isFocus)
  }

  /** `handleSaveEdit`: no patch without a user, a todo being edited and a
      title that is not blank; the title is sent as typed, the due date as
      midnight UTC of the picked day, the tags parsed. */
  function SaveEditPatch(signedIn: bool, editing: bool, form: EditForm): (r: Option<Store.TodoPatch>)
    ensures r.None? <==> !signedIn || !editing || Text.IsBlank(form.title)
    ensures r.Some? ==> r.value.title == Some(form.title) && r.value.tags == Some(ParseTags(form.tags))
    ensures r.Some? ==> r.value.isFocus == Some(form.isFocus)
    ensures r.Some? ==> r.value.dueDate.Some?
    ensures r.Some? ==> Metrics.DayOf(r.value.dueDate.value) == form.dueDate
    ensures r.Some? ==> r.value.dueDate.value % Metrics.MsPerDay == 0
    ensures r.Some? ==> r.value.completed.None? && r.value.id.None?
    ensures r.Some? ==> r.value.milestoneId.None? && r.value.createdAt.None?
  {
    if !signedIn || !editing || Text.Trim(form.title) == "" then None
    else
      Metrics.DayOfMidnight(form.dueDate);
      Some(Store.TodoPatch(None, Some(form.title), Some(form.isFocus), None, None,
      Some(form.dueDate * Metrics.MsPerDay), Some(ParseTags(form.tags)), None))
  }

  /** Saving an untouched edit form changes nothing for a todo with a
      title, clean tags and a due date at midnight UTC. */
  lemma UntouchedEditKeepsTodo(t: Todo)
    requires !Text.IsBlank(t.title)
    requires forall i :: 0 <= i < |t.tags| ==> IsCleanTag(t.tags[i])
    requires t.dueDate % Metrics.MsPerDay == 0
    ensures SaveEditPatch(true, true, StartEdit(t)).Some?
    ensures SaveEditPatch(true, true, StartEdit(t)).value.Apply(t) == t
  {
    TagsRoundTrip(t.tags);
    Metrics.MidnightOfDay(t.dueDate);
    var patch := SaveEditPatch(true, true, StartEdit(t)).value;
    assert patch.dueDate == Some(t.dueDate);
  }

  // ---------------------------------------------------------------------
  // Overdue

  /** `isOverdue`: due before now and not done. */
  predicate IsOverdue(t: Todo, now: Millis) {
    t.dueDate < now && !t.completed
  }

  /** Completing an overdue todo clears the mark; reopening it brings it back. */
  lemma ToggleClearsOverdue(t: Todo, now: Millis)
    requires IsOverdue(t, now)
    ensures !IsOverdue(TogglePatch(t.completed).Apply(t), now)
    ensures IsOverdue(t.(completed := true).(completed := false), now)
  {
  }
}
