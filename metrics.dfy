/** The derived metrics of lib/store.ts: the seven-day energy chart
    (`getWeeklyEnergy`) and the completion streak (`getStreak`). Calendar
    days are day numbers; "today" and today's weekday are parameters. */
module Metrics {
  import opened Basics
  import opened Types
  import opened Numbers
  import Lists
  import Store

  const MsPerDay: int := 86400000

  /** The UTC calendar day of an epoch-millisecond time, as
      `new Date(t).toISOString().split("T")[0]` names it. */
  function DayOf(t: Millis): (d: Day)
    ensures d * MsPerDay <= t < (d + 1) * MsPerDay
  {
    t / MsPerDay
  }

  /** Midnight UTC of a day lies on that day (a due date entered as a date). */
  lemma DayOfMidnight(d: Day)
    ensures DayOf(d * MsPerDay) == d
    ensures (d * MsPerDay) % MsPerDay == 0
  {
  }

  /** A time at midnight UTC is the midnight of its own day. */
  lemma MidnightOfDay(t: Millis)
    requires t % MsPerDay == 0
    ensures DayOf(t) * MsPerDay == t
  {
  }

  // ---------------------------------------------------------------------
  // Weekly energy

  /** JavaScript's `getDay()`: 0 is Sunday. */
  type Weekday = w: int | 0 <= w < 7

  /** Chart labels, Monday first. */
  const DayLabels: seq<string> := ["一", "二", "三", "四", "五", "六", "日"]

  /** The label of the day `back` days before today. */
  function LabelOf(todayWeekday: Weekday, back: int): string {
    var weekday := (todayWeekday - back) % 7;
    DayLabels[(weekday + 6) % 7]
  }

  /** The sum of the mood levels of some entries. */
  function MoodSum(es: seq<MoodEntry>): (r: int)
    ensures |es| <= r <= 5 * |es|
  {
    if |es| == 0 then 0 else MoodSum(es[..|es| - 1]) + es[|es| - 1].mood
  }

  /** The todos due on `day`. */
  function DueOn(todos: seq<Todo>, day: Day): (r: seq<Todo>)
    ensures forall t :: t in r <==> t in todos && DayOf(t.dueDate) == day
  {
    Lists.Filter(todos, (t: Todo) => DayOf(t.dueDate) == day)
  }

  predicate IsCompleted(t: Todo) { t.completed }

  /** How many of some todos are completed. */
  function CompletedCount(todos: seq<Todo>): (r: nat)
    ensures r <= |todos|
  {
    |Lists.Filter(todos, IsCompleted)|
  }

  /** The mood component: the rounded average level times 8. */
  function MoodPoints(es: seq<MoodEntry>): int
    requires |es| > 0
  {
    Round(MoodSum(es) as real / |es| as real * 8.0)
  }

  /** The todo-completion component: the rounded completion rate times 40. */
  function TaskPoints(due: seq<Todo>): int
    requires |due| > 0
  {
    Round(CompletedCount(due) as real / |due| as real * 40.0)
  }

  /** The energy of one day before clamping: mood points when the day's
      journal has mood entries, a flat 20 when it has mood entries or
      answers, task points when todos are due that day, summed; a baseline of
      10 when none of the three applies. */
  function RawEnergy(todos: seq<Todo>, journals: seq<Journal>, day: Day): int {
    var journal := Store.JournalOn(journals, day);
    var hasMood := journal.Some? && |Entries(journal.value)| > 0;
    var engaged := journal.Some? && (|Entries(journal.value)| > 0 || |journal.value.answers| > 0);
    var due := DueOn(todos, day);
    var mood := if hasMood then MoodPoints(Entries(journal.value)) else 0;
    var bonus := if engaged then 20 else 0;
    var tasks := if |due| > 0 then TaskPoints(due) else 0;
    if hasMood || engaged || |due| > 0 then mood + bonus + tasks else 10
  }

  /** The chart value of a day: the raw energy clamped to [0, 100]. */
  function DayEnergy(todos: seq<Todo>, journals: seq<Journal>, day: Day): (r: int)
    ensures 0 <= r <= 100
  {
    Percent(RawEnergy(todos, journals, day))
  }

  /** Mood points lie in [8, 40]: the average level lies in [1, 5]. */
  lemma MoodPointsBounds(es: seq<MoodEntry>)
    requires |es| > 0
    ensures 8 <= MoodPoints(es) <= 40
  {
    var n := |es| as real;
    var sum := MoodSum(es) as real;
    RatioBetween(sum, n, 1.0, 5.0);
    RoundBetween(8, sum / n * 8.0, 40);
  }

  /** Task points lie in [0, 40]: the completion rate lies in [0, 1]. */
  lemma TaskPointsBounds(due: seq<Todo>)
    requires |due| > 0
    ensures 0 <= TaskPoints(due) <= 40
  {
    var n := |due| as real;
    var done := CompletedCount(due) as real;
    RatioBetween(done, n, 0.0, 1.0);
    RoundBetween(0, done / n * 40.0, 40);
  }

  /** The raw energy never leaves [0, 100], so the clamp of the chart never
      cuts it: the three weights 40 + 20 + 40 add up to 100. */
  lemma RawEnergyInRange(todos: seq<Todo>, journals: seq<Journal>, day: Day)
    ensures 0 <= RawEnergy(todos, journals, day) <= 100
    ensures DayEnergy(todos, journals, day) == RawEnergy(todos, journals, day)
  {
    var journal := Store.JournalOn(journals, day);
    if journal.Some? && |Entries(journal.value)| > 0 {
      MoodPointsBounds(Entries(journal.value));
    }
    var due := DueOn(todos, day);
    if |due| > 0 {
      TaskPointsBounds(due);
    }
  }

  /** A day without a journal and without due todos shows the baseline 10. */
  lemma QuietDayIsBaseline(todos: seq<Todo>, journals: seq<Journal>, day: Day)
    requires forall i :: 0 <= i < |journals| ==> journals[i].date != day
    requires forall i :: 0 <= i < |todos| ==> DayOf(todos[i].dueDate) != day
    ensures DayEnergy(todos, journals, day) == 10
  {
    Lists.FilterNone(todos, (t: Todo) => DayOf(t.dueDate) == day);
  }

  /** One mood entry of level 5 and nothing due scores 40 + 20. */
  lemma SingleHappyMoodDay(j: Journal, todos: seq<Todo>)
    requires |Entries(j)| == 1 && Entries(j)[0].mood == 5
    requires forall i :: 0 <= i < |todos| ==> DayOf(todos[i].dueDate) != j.date
    ensures DayEnergy(todos, [j], j.date) == 60
  {
    Lists.FilterNone(todos, (t: Todo) => DayOf(t.dueDate) == j.date);
    assert MoodSum(Entries(j)) == 5 by {
      assert Entries(j)[..0] == [];
    }
  }

  /** Two todos due, one completed, no journal: round(0.5 * 40) = 20, not the baseline. */
  lemma HalfDoneDay(a: Todo, b: Todo, day: Day)
    requires DayOf(a.dueDate) == day && DayOf(b.dueDate) == day
    requires a.completed && !b.completed
    ensures DayEnergy([a, b], [], day) == 20
  {
    assert DueOn([a, b], day) == [a, b] by {
      Lists.FilterKeepsAll([a, b], (t: Todo) => DayOf(t.dueDate) == day);
    }
    assert Lists.Filter([a, b], IsCompleted) == [a] by {
      assert [a, b][1..] == [b];
      assert [b][1..] == [];
    }
  }

  /** The chart entry for the day `back` days before today. */
  function EnergyEntry(todos: seq<Todo>, journals: seq<Journal>, today: Day, todayWeekday: Weekday, back: int): WeeklyEnergy {
    WeeklyEnergy(LabelOf(todayWeekday, back), DayEnergy(todos, journals, today - back))
  }

  /** The body of the `getWeeklyEnergy` loop for one date: accumulate the
      three components, fall back to the baseline. */
  method ScoreDay(todos: seq<Todo>, journals: seq<Journal>, date: Day) returns (energy: int)
    ensures energy == RawEnergy(todos, journals, date)
  {
    energy := 0;
    var hasActivity := false;

    var journal := Store.JournalOn(journals, date);
    if journal.Some? && journal.value.moodEntries.Some? && |journal.value.moodEntries.value| > 0 {
      var entries := journal.value.moodEntries.value;
      var avgMood := MoodSum(entries) as real / |entries| as real;
      energy := energy + Round(avgMood * 8.0);
      hasActivity := true;
    }

    if journal.Some? && (|Entries(journal.value)| > 0 || |journal.value.answers| > 0) {
      energy := energy + 20;
      hasActivity := true;
    }

    var relevantTodos := DueOn(todos, date);
    if |relevantTodos| > 0 {
      var completionRate := CompletedCount(relevantTodos) as real / |relevantTodos| as real;
      energy := energy + Round(completionRate * 40.0);
      hasActivity := true;
    }

    if !hasActivity {
      energy := 10;
    }
  }

  /** `getWeeklyEnergy`: seven entries, oldest first, the last one today. */
  method GetWeeklyEnergy(todos: seq<Todo>, journals: seq<Journal>, today: Day, todayWeekday: Weekday)
    returns (weekData: seq<WeeklyEnergy>)
    ensures |weekData| == 7
    ensures forall k :: 0 <= k < 7 ==> weekData[k] == EnergyEntry(todos, journals, today, todayWeekday, 6 - k)
    ensures weekData[6].day == DayLabels[(todayWeekday + 6) % 7]
  {
    weekData := [];
    // i runs from 6 down to 0
    for i := 7 downto 0
      invariant |weekData| == 7 - i
      invariant forall k :: 0 <= k < |weekData| ==> weekData[k] == EnergyEntry(todos, journals, today, todayWeekday, 6 - k)
    {
      var date := today - i;
      var dayIndex := ((todayWeekday - i) % 7 + 6) % 7;
      var energy := ScoreDay(todos, journals, date);
      EntryOfDay(todos, journals, today, todayWeekday, i, date, energy);
      weekData := weekData + [WeeklyEnergy(DayLabels[dayIndex], Percent(energy))];
    }
    TodayLabel(todayWeekday);
  }

  /** What one round of the `getWeeklyEnergy` loop pushes is the chart entry
      of the day `back` days ago. */
  lemma EntryOfDay(todos: seq<Todo>, journals: seq<Journal>, today: Day, todayWeekday: Weekday, back: int,
                   date: Day, energy: int)
    requires date == today - back && energy == RawEnergy(todos, journals, date)
    ensures WeeklyEnergy(DayLabels[((todayWeekday - back) % 7 + 6) % 7], Percent(energy))
         == EnergyEntry(todos, journals, today, todayWeekday, back)
  {
  }

  /** Today's label is the Monday-based label of today's weekday. */
  lemma TodayLabel(todayWeekday: Weekday)
    ensures LabelOf(todayWeekday, 0) == DayLabels[(todayWeekday + 6) % 7]
  {
  }

  /** The seven labels are seven different strings. */
  lemma DayLabelsDistinct(a: int, b: int)
    requires 0 <= a < 7 && 0 <= b < 7 && a != b
    ensures DayLabels[a] != DayLabels[b]
  {
    assert DayLabels[a][0] != DayLabels[b][0];
  }

  /** Two of the seven days of a week never share a label index. */
  lemma LabelIndexDistinct(todayWeekday: Weekday, k: int, l: int)
    requires 0 <= k < l < 7
    ensures ((todayWeekday - k) % 7 + 6) % 7 != ((todayWeekday - l) % 7 + 6) % 7
  {
    assert (todayWeekday - k) % 7 != (todayWeekday - l) % 7;
  }

  /** The seven chart labels name seven different weekdays. */
  lemma WeekLabelsDistinct(todayWeekday: Weekday)
    ensures forall k, l :: 0 <= k < l < 7 ==> LabelOf(todayWeekday, k) != LabelOf(todayWeekday, l)
  {
    forall k, l | 0 <= k < l < 7 ensures LabelOf(todayWeekday, k) != LabelOf(todayWeekday, l) {
      LabelIndexDistinct(todayWeekday, k, l);
      DayLabelsDistinct(((todayWeekday - k) % 7 + 6) % 7, ((todayWeekday - l) % 7 + 6) % 7);
    }
  }

  // ---------------------------------------------------------------------
  // Streak

  /** The days that have at least one completed todo due on them. */
  function CompletedDays(todos: seq<Todo>): set<Day> {
    set t | t in todos && t.completed :: DayOf(t.dueDate)
  }

  /** One more todo adds its due day to the set exactly when it is completed. */
  lemma CompletedDaysSnoc(todos: seq<Todo>, t: Todo)
    ensures CompletedDays(todos + [t]) ==
      CompletedDays(todos) + (if t.completed then {DayOf(t.dueDate)} else {})
  {
    assert forall x :: x in todos + [t] <==> x in todos || x == t;
  }

  /** How many of the `n` days `start`, `start - 1`, ... lie in `days`
      before the first one that does not. */
  function Run(days: set<Day>, start: Day, n: nat): (r: nat)
    ensures r <= n
    decreases n
  {
    if n == 0 || start !in days then 0 else 1 + Run(days, start - 1, n - 1)
  }

  /** The streak: the run ending today when today has a completed todo,
      otherwise the run ending yesterday; the walk covers at most 365 days. */
  function Streak(days: set<Day>, today: Day): (r: nat)
    ensures r <= 365
  {
    if today in days then 1 + Run(days, today - 1, 364) else Run(days, today - 1, 364)
  }

  /** What a run counts: every counted day is in the set, and the walk stopped
      at a missing day or at its bound. */
  lemma {:induction false} RunCounts(days: set<Day>, start: Day, n: nat)
    ensures forall d :: start - Run(days, start, n) < d <= start ==> d in days
    ensures Run(days, start, n) < n ==> start - Run(days, start, n) !in days
    decreases n
  {
    if n > 0 && start in days {
      RunCounts(days, start - 1, n - 1);
    }
  }

  /** A run is determined by where the days first stop being in the set. */
  lemma {:induction false} RunExact(days: set<Day>, start: Day, n: nat, k: nat)
    requires k <= n
    requires forall d :: start - k < d <= start ==> d in days
    requires k == n || start - k !in days
    ensures Run(days, start, n) == k
    decreases n
  {
    if k > 0 {
      assert start in days;
      RunExact(days, start - 1, n - 1, k - 1);
    }
  }

  /** The streak is the run of consecutive completed days ending today, or
      ending yesterday when today has none yet. */
  lemma StreakIsRun(days: set<Day>, today: Day)
    ensures today in days ==>
      (forall d :: today - Streak(days, today) < d <= today ==> d in days) &&
      (Streak(days, today) == 365 || today - Streak(days, today) !in days)
    ensures today !in days ==>
      Streak(days, today) <= 364 &&
      (forall d :: today - 1 - Streak(days, today) < d < today ==> d in days) &&
      (Streak(days, today) == 364 || today - 1 - Streak(days, today) !in days)
  {
    RunCounts(days, today - 1, 364);
  }

  /** Completed todos today, yesterday and the day before, none three days
      ago: a streak of 3. */
  lemma ThreeDayStreak(days: set<Day>, today: Day)
    requires today in days && today - 1 in days && today - 2 in days && today - 3 !in days
    ensures Streak(days, today) == 3
  {
    RunExact(days, today - 1, 364, 2);
  }

  /** Nothing completed today, but yesterday and the day before: a streak of 2. */
  lemma TodayForgivenStreak(days: set<Day>, today: Day)
    requires today !in days && today - 1 in days && today - 2 in days && today - 3 !in days
    ensures Streak(days, today) == 2
  {
    RunExact(days, today - 1, 364, 2);
  }

  /** The first loop of `getStreak`: the due days of the completed todos. */
  method CollectCompletedDays(todos: seq<Todo>) returns (completedDates: set<Day>)
    ensures completedDates == CompletedDays(todos)
  {
    completedDates := {};
    for k := 0 to |todos|
      invariant completedDates == CompletedDays(todos[..k])
    {
      assert todos[..k + 1] == todos[..k] + [todos[k]];
      CompletedDaysSnoc(todos[..k], todos[k]);
      if todos[k].completed {
        completedDates := completedDates + {DayOf(todos[k].dueDate)};
      }
    }
    assert todos[..|todos|] == todos;
  }

  /** The second loop of `getStreak`: walk back from today over at most 365
      days, counting completed days and stopping at the first missing day
      other than today. */
  method WalkBack(completedDates: set<Day>, today: Day) returns (streak: int)
    ensures streak == Streak(completedDates, today)
  {
    streak := 0;
    ghost var stopped := false;
    var i := 0;
    while i < 365
      invariant 0 <= i <= 365
      invariant !stopped
      invariant forall d :: today - i < d < today ==> d in completedDates
      invariant streak == (if i >= 1 && today in completedDates then 1 else 0) + (if i >= 1 then i - 1 else 0)
    {
      var date := today - i;
      if date in completedDates {
        streak := streak + 1;
      } else if i > 0 {
        RunExact(completedDates, today - 1, 364, i - 1);
        stopped := true;
        break;
      }
      i := i + 1;
    }
    if !stopped {
      RunExact(completedDates, today - 1, 364, 364);
    }
  }

  /** `getStreak`: collect the completed days, then walk back from today,
      forgiving a today without completions. */
  method GetStreak(todos: seq<Todo>, today: Day) returns (streak: int)
    ensures streak == Streak(CompletedDays(todos), today)
  {
    var completedDates := CollectCompletedDays(todos);
    streak := WalkBack(completedDates, today);
  }
}
