/** The logic of components/add-task-dialog.tsx: toggling tags and the
    linked milestone, and the form that submits a new todo to the store. */
module AddTaskDialog {
  import opened Basics
  import opened Types
  import Text
  import Lists
  import Store
  import Metrics
  import DashboardView

  /** `toggleTag`: a selected tag is removed everywhere it occurs, an
      unselected one is appended. */
  function ToggleTag(tags: seq<string>, tag: string): (r: seq<string>)
    ensures tag in r <==> tag !in tags
    ensures forall t :: t != tag ==> (t in r <==> t in tags)
    ensures tag !in tags ==> r == tags + [tag]
  {
    if tag in tags then Lists.Filter(tags, (t: string) => t != tag) else tags + [tag]
  }

  /** Selecting a tag and selecting it again gives the original selection. */
  lemma ToggleTagTwice(tags: seq<string>, tag: string)
    requires tag !in tags
    ensures ToggleTag(ToggleTag(tags, tag), tag) == tags
  {
    var p := (t: string) => t != tag;
    Lists.FilterConcat(tags, [tag], p);
    Lists.FilterKeepsAll(tags, p);
    assert Lists.Filter([tag], p) == [];
  }

  /** A selection without repeats stays without repeats. */
  lemma ToggleTagNoRepeats(tags: seq<string>, tag: string)
    requires forall i, j :: 0 <= i < j < |tags| ==> tags[i] != tags[j]
    ensures var r := ToggleTag(tags, tag); forall i, j :: 0 <= i < j < |r| ==> r[i] != r[j]
  {
    if tag in tags {
      var r := ToggleTag(tags, tag);
      Lists.FilterSubsequence(tags, (t: string) => t != tag);
      SubsequenceNoRepeats(r, tags);
    }
  }

  /** Leaving elements out of a list without repeats leaves no repeats. */
  lemma {:induction false} SubsequenceNoRepeats(a: seq<string>, b: seq<string>)
    requires Lists.Subsequence(a, b)
    requires forall i, j :: 0 <= i < j < |b| ==> b[i] != b[j]
    ensures forall i, j :: 0 <= i < j < |a| ==> a[i] != a[j]
    ensures forall x :: x in a ==> x in b
  {
    if |a| > 0 {
      if a[0] == b[0] && Lists.Subsequence(a[1..], b[1..]) {
        SubsequenceNoRepeats(a[1..], b[1..]);
        assert forall j :: 0 < j < |a| ==> a[j] in b[1..];
      } else {
        SubsequenceNoRepeats(a, b[1..]);
      }
    }
  }

  /** The milestone chips: clicking the selected one clears the selection
      to "", clicking another selects it. */
  function ToggleMilestone(selected: string, milestoneId: string): (r: string)
    ensures selected == milestoneId ==> r == ""
    ensures selected != milestoneId ==> r == milestoneId
  {
    if selected == milestoneId then "" else milestoneId
  }

  /** Clicking the same chip twice from no selection leaves no selection. */
  lemma ToggleMilestoneTwice(milestoneId: string)
    ensures ToggleMilestone(ToggleMilestone("", milestoneId), milestoneId) == ""
  {
  }

  /** The todo `handleSubmit` sends: the trimmed title, not completed, due
      at midnight UTC of the picked day, the selected tags, and the
      milestone link unless none is selected. None when the form may not
      be sent: no user, a blank title, or a submit still running. */
  function SubmitPayload(signedIn: bool, isSubmitting: bool, title: string, isFocus: bool,
                         dueDate: Day, tags: seq<string>, milestone: string): (r: Option<Store.NewTodo>)
    ensures r.None? <==> !signedIn || Text.IsBlank(title) || isSubmitting
    ensures r.Some? ==>
      r.value.title == Text.Trim(title) && Text.IsTrimmed(r.value.title) && r.value.title != "" &&
      !r.value.completed && r.value.isFocus == isFocus && r.value.tags == tags &&
      (r.value.milestoneId.None? <==> milestone == "") &&
      Metrics.DayOf(r.value.dueDate) == dueDate
  {
    if !signedIn || Text.Trim(title) == "" || isSubmitting then None
    else
      Metrics.DayOfMidnight(dueDate);
      Some(Store.NewTodo(Text.Trim(title), isFocus, false,
        if milestone == "" then None else Some(milestone), dueDate * Metrics.MsPerDay, tags))
  }

  /** A submitted todo that is not a focus todo shows in the dashboard's
      list of other todos. */
  lemma SubmittedTodoListed(todos: seq<Todo>, payload: Store.NewTodo, freshId: string, now: Millis)
    requires forall i :: 0 <= i < |todos| ==> todos[i].id != freshId
    requires !payload.completed && !payload.isFocus
    ensures payload.Complete(freshId, now) in DashboardView.OtherTodos(todos + [payload.Complete(freshId, now)])
  {
    var created := payload.Complete(freshId, now);
    var all := todos + [created];
    var focus := DashboardView.FocusTodo(all);
    if focus.Some? {
      assert focus.value != created;
      assert focus.value in todos;
    }
    assert !DashboardView.SameId(focus, created);
    DashboardView.OtherTodosAreTheRest(all);
  }

  /** The dialog's form state. */
  class TaskForm {
    var title: string
    var isFocus: bool
    var dueDate: Day
    var selectedTags: seq<string>
    var selectedMilestone: string
    var isSubmitting: bool

    /** The fields `resetForm` sets: an empty title, no focus, due `today`,
        no tags and no milestone. */
    predicate IsReset(today: Day)
      reads this`title, this`isFocus, this`dueDate, this`selectedTags, this`selectedMilestone
    {
      title == "" && !isFocus && dueDate == today && selectedTags == [] && selectedMilestone == ""
    }

    /** A fresh dialog: empty form due today. */
    constructor (today: Day)
      ensures IsReset(today) && !isSubmitting
    {
      title, isFocus, dueDate, selectedTags, selectedMilestone, isSubmitting := "", false, today, [], "", false;
    }

    /** `resetForm`: clear the title, tags and milestone, unset focus, due today. */
    method ResetForm(today: Day)
      modifies this`title, this`isFocus, this`dueDate, this`selectedTags, this`selectedMilestone
      ensures IsReset(today)
    {
      title := "";
      isFocus := false;
      dueDate := today;
      selectedTags := [];
      selectedMilestone := "";
    }

    /** `toggleTag` applied to the form. */
    method ToggleTagInForm(tag: string)
      modifies this`selectedTags
      ensures selectedTags == ToggleTag(old(selectedTags), tag)
    {
      if tag in selectedTags {
        selectedTags := Lists.Filter(selectedTags, (t: string) => t != tag);
      } else {
        selectedTags := selectedTags + [tag];
      }
    }

    /** `handleSubmit`: when the form may be sent, add the todo, reset the
      form and finish with no submit running; otherwise change nothing. */
    method HandleSubmit(store: Store.UserStore, signedIn: bool, today: Day, freshId: string, now: Millis)
      returns (added: Option<Todo>)
      requires forall i :: 0 <= i < |store.todos| ==> store.todos[i].id != freshId
      modifies this, store`todos
      ensures var payload := SubmitPayload(signedIn, old(isSubmitting), old(title), old(isFocus),
                                           old(dueDate), old(selectedTags), old(selectedMilestone));
        added == (if payload.None? then None else Some(payload.value.Complete(freshId, now)))
      ensures added.None? ==> store.todos == old(store.todos) && unchanged(this)
      ensures added.Some? ==> store.todos == old(store.todos) + [added.value] && IsReset(today) && !isSubmitting
    {
      // the guard and the payload literal
      var payload := SubmitPayload(signedIn, isSubmitting, title, isFocus, dueDate, selectedTags, selectedMilestone);
      if payload.None? {
        return None;
      }
      var created := Send(store, payload.value, today, freshId, now);
      added := Some(created);
    }

    /** The `try` / `finally` block of `handleSubmit`: mark a submit as
      running, add the todo, reset the form, and mark the submit finished. */
    method Send(store: Store.UserStore, todo: Store.NewTodo, today: Day, freshId: string, now: Millis)
      returns (created: Todo)
      requires forall i :: 0 <= i < |store.todos| ==> store.todos[i].id != freshId
      modifies this, store`todos
      ensures created == todo.Complete(freshId, now)
      ensures store.todos == old(store.todos) + [created]
      ensures IsReset(today) && !isSubmitting
    {
      isSubmitting := true;
      created := store.AddTodo(todo, freshId, now);
      ResetForm(today);
      isSubmitting := false;
    }
  }
}
