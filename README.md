# growth-loop in Dafny

growth-loop is a personal-growth web application. A signed-in user keeps:

- todos, some marked as the focus of the day;
- milestones, each measuring progress in one of three ways (a self-rating, a count, or a numeric range);
- a vision board;
- a daily journal with mood entries and four reflection questions.

The dashboard derives a seven-day energy chart and a completion streak from these records.

This project models the application's logic in Dafny and proves what that logic promises.

- `basics.dfy` (`Basics`): the `Option` and `Result` datatypes. A JavaScript `undefined` becomes `None`; a thrown error becomes `Failure`.
- `lists.dfy` (`Lists`): the array idioms the code relies on: `findIndex`, `find`, `filter`, and "patch the first record with this id".
- `text.dfy` (`Text`): `trim`, `split` on one character, and `join`.
- `numbers.dfy` (`Numbers`): `Math.round` on exact values, and the clamp to a percentage.
- `types.dfy` (`Types`): the records of `lib/types.ts`.
- `store.dfy` (`Store`): the per-user tables of `lib/store.ts`.
  - A `UserStore` object holds one user's four lists as sequence fields.
  - Its methods append, patch the first match, or filter, exactly as the store functions do.
  - Journals add the nested mood-entry operations and "get or create today's journal".
- `metrics.dfy` (`Metrics`): `getWeeklyEnergy` and `getStreak`.
  - Each is an imperative method proved equal to a specification function.
  - The properties of the chart and the streak are proved about those functions.
- `milestones_view.dfy` (`MilestonesView`): the progress formula, the trend series, the colour-theme fallback, and the per-type normalisation when a milestone is added.
- `journal_view.dfy` (`JournalView`):
  - the average mood and the mood faces;
  - the answers map and its conversion to and from the stored answer list;
  - the question wizard, as a class whose fields are the current question and the view;
  - saving a mood or the answers through the store;
  - the newest-first history list.
- `dashboard_view.dfy` (`DashboardView`): the focus todo and the list below it, the comma-separated tag field, the greeting, the toggle and edit patches, and the overdue mark.
- `add_task_dialog.dfy` (`AddTaskDialog`): toggling tags and the linked milestone, and the dialog form that submits a new todo.
- `user_settings.dfy` (`UserSettings`): when a new name, e-mail address or password is sent, and what each handler leaves in the form.
- `auth.dfy` (`Auth`):
  - the 32-bit password hash, modelled with explicit ToInt32 wrap-around and `toString(16)`;
  - registering, logging in and logging out over the stored user list.

Modelling choices:

- The clock and the id generator are parameters: `now`, `today`, `freshId`. An add operation requires its fresh id to be unused in its table.
- A calendar day is an integer day number. `new Date(t).toISOString().split("T")[0]` becomes `t / 86400000`, the UTC day. Today's weekday (`getDay()`) is a parameter.
- Numbers are exact: milestone values and averages are `real`, and counters are `int`. Nothing in the model is NaN or infinite.
- A `Partial<T>` update is a patch datatype with one `Option` per field.
- The answers object of the journal page is an insertion-ordered list of (question id, content) pairs with unique keys. That is how a JavaScript object with string keys enumerates.

Two behaviours of the code are modelled as written:

- The username and e-mail handlers compare the untrimmed input with the saved value, but send the trimmed input. A value typed with a trailing space is therefore sent again after it was saved (`UserSettings.PaddedValueResent`).
- `otherTodos` drops an open focus todo only when it has the focus todo's id. `DashboardView.OtherTodosAreTheRest` states exactly that.

## Model

| member | source | states |
|---|---|---|
| Lists.IndexOfKey | lib/store.ts:45 | `findIndex` by id: -1 exactly when no record has the key; otherwise the first record that has it |
| Lists.Find | lib/auth-context.tsx:54-57 | `find`: nothing exactly when no element qualifies; otherwise the first qualifying element, with no element before it qualifying |
| Lists.Filter | lib/store.ts:54 | `filter`: an element is kept iff it was in the list and meets the predicate; never longer |
| Lists.RemoveKey | lib/store.ts:52-55 | removing an id keeps exactly the records with another id |
| Lists.PatchFirst | lib/store.ts:43-50 | same length; only the first record with the id is replaced by its patched form; an unknown id changes nothing |
| Lists.FilterConcat | lib/store.ts:54 | filtering distributes over concatenation, so the original order is kept |
| Lists.FilterKeepsAll | lib/store.ts:54 | a filter that every element passes returns the list unchanged |
| Lists.FilterNone | lib/store.ts:300-303 | a filter that no element passes returns the empty list |
| Lists.FilterSubsequence | lib/store.ts:52-55 | the filtered list is a subsequence of the original, in its order |
| Lists.FindAppended | lib/store.ts:163-171 | a record appended with a fresh key is the one `findIndex` finds for that key |
| Lists.RemoveAppended | lib/store.ts:52-55 | deleting the id of a freshly added record gives back the table as it was |
| Text.TrimStart | components/dashboard.tsx:135 | removes exactly the leading whitespace: the result is a suffix, and what was cut is all whitespace |
| Text.TrimEnd | components/dashboard.tsx:135 | removes exactly the trailing whitespace: the result is a prefix, and what was cut is all whitespace |
| Text.Trim | components/add-task-dialog.tsx:66 | `trim()` yields a trimmed string no longer than the input, empty exactly when the input is all whitespace |
| Text.TrimCutsEnds | components/add-task-dialog.tsx:66 | `trim()` yields `s` with a whitespace-only prefix and a whitespace-only suffix cut off |
| Text.TrimTrimmed | components/dashboard.tsx:135 | trimming an already trimmed string changes nothing |
| Text.TrimIdempotent | components/dashboard.tsx:135 | trimming twice equals trimming once |
| Text.TrimAfterSpace | components/dashboard.tsx:122 | the space after a ", " separator is trimmed away again |
| Text.TrimBeforeSpace | components/user-settings.tsx:35 | a trailing space after a non-empty trimmed value is trimmed away |
| Text.Split | components/dashboard.tsx:133-134 | `split(c)` gives at least one piece, and no piece contains `c` |
| Text.SplitPiece | components/dashboard.tsx:133-134 | a separator-free piece followed by the separator splits off as one piece |
| Text.SplitNone | components/dashboard.tsx:133-134 | a string without the separator splits into itself |
| Text.SplitJoin | components/dashboard.tsx:133-134 | splitting on `c` undoes joining with `c` when no piece contains `c` |
| Text.SplitAfterSpace | components/dashboard.tsx:133-134 | a leading space stays on the first piece |
| Text.SplitJoinSpaced | components/dashboard.tsx:122 | splitting a ", "-joined list on "," gives back the pieces, every one after the first with its leading space |
| Numbers.Round | lib/store.ts:288 | `Math.round`: the result is within one half of the argument, with halves rounded up |
| Numbers.Clamp | lib/store.ts:320 | `Math.max(lo, Math.min(hi, x))` lies in [lo, hi] and is `x` when `x` already lies there |
| Numbers.Percent | components/milestones.tsx:64 | clamping to [0, 100] leaves values already in range unchanged |
| Numbers.RoundBetween | lib/store.ts:288 | a value between two integers rounds to a value between them |
| Numbers.RatioBetween | lib/store.ts:287 | a quotient keeps the bounds that its dividend has relative to the divisor |
| Types.ParseKind | components/milestones.tsx:59-73 | a stored type string reads as self-rating or count only for those exact strings; anything else is numeric |
| Types.KindRoundTrip | lib/types.ts:25 | each of the three milestone types is read back from its stored string |
| Types.ThemeTagInjective | lib/types.ts:36 | the four colour-theme strings are distinct |
| Store.JournalOn | lib/store.ts:250-252 | the journal found for a date has that date and is the first one; nothing is found exactly when no journal has the date |
| Store.TodayJournalOnce | lib/store.ts:161-174 | the journal returned is dated today, at most one journal is created, and a second call returns the same journal and changes nothing |
| Store.TodayJournalKeepsDatesUnique | lib/store.ts:161-174 | getting today's journal keeps at most one journal per date |
| Store.RemoveAddedEntry | lib/store.ts:177-248 | deleting a freshly added mood entry restores the journal's entries |
| Store.PatchedEntryOnly | lib/store.ts:204-229 | patching a mood entry keeps the number of entries, every entry with another id, and the journal's id, date and answers |
| Store.UserStore.constructor | lib/store.ts:23-25 | a user with nothing stored reads four empty lists |
| Store.UserStore.AddTodo | lib/store.ts:31-41 | appends exactly one todo at the end, with the given fields, the fresh id and the current time |
| Store.UserStore.UpdateTodo | lib/store.ts:43-50 | the todo list becomes the patch-first-match of the old list; other lists untouched |
| Store.UserStore.DeleteTodo | lib/store.ts:52-55 | the todo list keeps exactly the todos with another id, in order |
| Store.UserStore.AddMilestone | lib/store.ts:66-79 | appends exactly one milestone with the fresh id and the current time |
| Store.UserStore.UpdateMilestone | lib/store.ts:81-92 | only the first milestone with the id is patched |
| Store.UserStore.DeleteMilestone | lib/store.ts:94-97 | every milestone with the id is removed |
| Store.UserStore.AddVision | lib/store.ts:108-118 | appends exactly one vision with the fresh id and the current time |
| Store.UserStore.UpdateVision | lib/store.ts:120-127 | only the first vision with the id is patched |
| Store.UserStore.DeleteVision | lib/store.ts:129-132 | every vision with the id is removed |
| Store.UserStore.AddJournal | lib/store.ts:143-158 | appends one journal, created and updated at the current time |
| Store.UserStore.JournalByDate | lib/store.ts:250-252 | the journal found is in the table and has the date |
| Store.UserStore.GetOrCreateTodayJournal | lib/store.ts:161-174 | returns today's first journal, or appends and returns an empty one (the `TodayJournal` function) |
| Store.UserStore.AddMoodEntry | lib/store.ts:177-201 | only the first journal with the id gains the entry at the end of its list (a missing list created first) and a new `updatedAt`; an unknown journal changes nothing |
| Store.UserStore.UpdateMoodEntry | lib/store.ts:204-229 | only the first matching entry of the first matching journal is patched; a journal without a list, or an unknown entry, is left as it was |
| Store.UserStore.DeleteMoodEntry | lib/store.ts:232-248 | every entry with the id leaves the first matching journal; a journal without a list is left as it was |
| Store.UserStore.UpdateJournal | lib/store.ts:254-261 | only the first journal with the id is patched, and its `updatedAt` becomes the current time |
| Metrics.DayOf | lib/store.ts:301 | the UTC day of a time: the time lies within that day's 86,400,000 milliseconds |
| Metrics.DayOfMidnight | components/add-task-dialog.tsx:74 | midnight UTC of a picked day lies on that day |
| Metrics.MoodSum | lib/store.ts:287 | the sum of n mood levels lies in [n, 5n] |
| Metrics.DueOn | lib/store.ts:300-303 | the todos of a day are exactly the todos whose due date falls on it |
| Metrics.CompletedCount | lib/store.ts:306 | the count of completed todos is at most the number of todos |
| Metrics.DayEnergy | lib/store.ts:320 | a chart value lies in [0, 100] |
| Metrics.MoodPointsBounds | lib/store.ts:286-288 | the mood component lies in [8, 40] |
| Metrics.TaskPointsBounds | lib/store.ts:305-308 | the task component lies in [0, 40] |
| Metrics.RawEnergyInRange | lib/store.ts:279-320 | the unclamped energy already lies in [0, 100], so the final clamp never changes it |
| Metrics.QuietDayIsBaseline | lib/store.ts:314-316 | a day without a journal and without due todos scores the baseline 10 |
| Metrics.SingleHappyMoodDay | lib/store.ts:285-296 | one entry of level 5 and nothing due scores 40 + 20 = 60 |
| Metrics.HalfDoneDay | lib/store.ts:305-310 | two todos due, one done, scores 20 and not the baseline |
| Metrics.ScoreDay | lib/store.ts:279-316 | the loop body's accumulation of the three components, with the baseline fallback, equals the day's raw energy |
| Metrics.GetWeeklyEnergy | lib/store.ts:265-325 | exactly 7 entries, oldest first, entry k scoring the day 6 - k days ago; the last entry is today and carries today's Monday-based label |
| Metrics.EntryOfDay | lib/store.ts:318-321 | the entry pushed for the day `back` days ago is that day's chart entry: the label of its weekday and its clamped energy |
| Metrics.TodayLabel | lib/store.ts:277 | today's label is the Monday-based label of today's weekday |
| Metrics.WeekLabelsDistinct | lib/store.ts:277 | the seven labels of a week are seven different weekdays |
| Metrics.DayLabelsDistinct | lib/store.ts:268 | the seven weekday labels are pairwise different strings |
| Metrics.LabelIndexDistinct | lib/store.ts:277 | two different days of the same week never map to the same label index |
| Metrics.CompletedDaysSnoc | lib/store.ts:332-337 | one more todo adds its due day to the set exactly when it is completed |
| Metrics.Run | lib/store.ts:342-352 | a walk of at most n days counts at most n |
| Metrics.Streak | lib/store.ts:342 | the streak is at most 365 |
| Metrics.RunCounts | lib/store.ts:347-350 | every day a run counts has a completed todo, and the walk stopped at a day without one or at its bound |
| Metrics.RunExact | lib/store.ts:347-350 | the first day without a completed todo determines the run |
| Metrics.StreakIsRun | lib/store.ts:328-355 | the streak is the run of days with completed todos ending today, or ending yesterday when today has none |
| Metrics.ThreeDayStreak | lib/store.ts:347-350 | completed todos today and on the two previous days, none the day before, give a streak of 3 |
| Metrics.TodayForgivenStreak | lib/store.ts:349 | an empty today is skipped: yesterday and the day before give a streak of 2 |
| Metrics.GetStreak | lib/store.ts:328-355 | the set-building loop and the bounded walk back from today compute `Streak` of the completed days |
| Metrics.CollectCompletedDays | lib/store.ts:329-336 | the set built by the first loop is exactly the due days of the completed todos |
| Metrics.WalkBack | lib/store.ts:338-352 | the bounded walk back from today, with its `break` at the first missing day other than today, returns `Streak` of the set |
| MilestonesView.Progress | components/milestones.tsx:61-79 | the progress of every type is a whole percentage in [0, 100] |
| MilestonesView.CalculateProgress | components/milestones.tsx:54-80 | the progress of a stored milestone, even one with missing fields, lies in [0, 100] |
| MilestonesView.ProgressOf | components/milestones.tsx:54-80 | a complete milestone's progress is the stored-record formula and lies in [0, 100] |
| MilestonesView.MissingValuesDefault | components/milestones.tsx:56-59 | with every value missing the progress is 0, whatever the type |
| MilestonesView.UnknownKindIsNumeric | components/milestones.tsx:72-73 | a missing, empty or unknown type uses the numeric formula |
| MilestonesView.SelfRatingIsCurrent | components/milestones.tsx:62-64 | a self-rating ignores start and target and shows the current value clamped to [0, 100] |
| MilestonesView.CountIgnoresStart | components/milestones.tsx:66-70 | a count ignores the start, and a target of at most 0 gives 0 |
| MilestonesView.CountAtTarget | components/milestones.tsx:69-70 | a count at or past a positive target shows 100 |
| MilestonesView.NumericEmptyRange | components/milestones.tsx:76 | an empty numeric range shows 100 once the target is reached, otherwise 0 |
| MilestonesView.NumericEndpoints | components/milestones.tsx:77-78 | a numeric range shows 0 at its start and 100 at its target, rising or falling |
| MilestonesView.NumericRisingMonotone | components/milestones.tsx:77-78 | on a rising range, a larger current value never shows less progress |
| MilestonesView.NumericFallingAntitone | components/milestones.tsx:77-78 | on a falling range, a smaller current value never shows less progress |
| MilestonesView.ProgressExamples | components/milestones.tsx:66-78 | worked values: 3 of 10 is 30, 85 on 80 to 90 is 50, 75 on 80 to 70 is 50, and the empty range at 50 |
| MilestonesView.GenerateTrendData | components/milestones.tsx:280-289 | five points for a stored record, the last of which is its `calculateProgress` value |
| MilestonesView.TrendRises | components/milestones.tsx:282-288 | the trend never falls and stays between 0 and the progress |
| MilestonesView.ParseTheme | components/milestones.tsx:275-277 | an unknown theme falls back to mint |
| MilestonesView.ThemeRoundTrip | components/milestones.tsx:33-38 | every theme is found again from its stored string |
| MilestonesView.PrepareNewMilestone | components/milestones.tsx:164-190 | nothing is added exactly without a user, with a blank title, or without a deadline; self-rating forces 0..100, count forces start 0, numeric keeps its values |
| MilestonesView.NormalisationKeepsProgress | components/milestones.tsx:167-179 | the normalisation only rewrites values the type's formula ignores, so the added milestone shows the progress the form describes |
| JournalView.FaceOf | components/journal.tsx:38 | a mood 1..5 draws its own face; any other value draws the neutral face of value 3 |
| JournalView.AverageMood | components/journal.tsx:206-210 | the average mood is a level in 1..5, and 3 for a journal without entries |
| JournalView.AverageOfOne | components/journal.tsx:206-210 | one entry averages to its own level, and the history row draws that level's face |
| JournalView.AverageOfEqual | components/journal.tsx:208 | n entries of level m sum to m times n |
| JournalView.AverageOfUniform | components/journal.tsx:206-210 | entries that share one level average to that level |
| JournalView.Lookup | components/journal.tsx:127 | a key is missing exactly when no entry has it; a value found is stored under the key |
| JournalView.Put | components/journal.tsx:127 | after writing key k: k reads the new value, every other key reads as before, keys stay unique, and the size grows only for a new key |
| JournalView.LookupAppend | components/journal.tsx:127 | lookup in a map with a new key appended at the end |
| JournalView.LookupUpdate | components/journal.tsx:127 | lookup in a map whose entry for k is overwritten in place |
| JournalView.AnswersToMap | components/journal.tsx:125-128 | the map loaded from an answer list has unique keys |
| JournalView.LoadAnswers | components/journal.tsx:125-128 | the loop writing each answer in turn builds `AnswersToMap` of the list |
| JournalView.MapToAnswers | components/journal.tsx:195-198 | `Object.entries(...).map(...)` lists the map's entries as answers, in order |
| JournalView.SavedIdsUnique | components/journal.tsx:195-198 | a saved answer list names each question once |
| JournalView.MapRoundTrip | components/journal.tsx:125-128 | saving the answers map and loading it again gives the same map |
| JournalView.ListRoundTrip | components/journal.tsx:125-128 | loading a list that answers each question once, then saving it, gives the same list |
| JournalView.AnswersAsMap | components/journal.tsx:125-128 | a list that answers each question once loads as its own entries, in order |
| JournalView.LastAnswerWins | components/journal.tsx:126-127 | after loading, a question shows the content of its last answer |
| JournalView.AdvanceStep | components/journal.tsx:278-282 | before the last question the index moves on by one; on the last question it saves instead and stays |
| JournalView.FourthStepSaves | components/journal.tsx:342-358 | from the first question, three steps reach the last one and the fourth step saves |
| JournalView.QuestionWizard.constructor | components/journal.tsx:95-107 | the page opens on the list at question 0 |
| JournalView.QuestionWizard.Start | components/journal.tsx:185-188 | starting the questions shows question 0 |
| JournalView.QuestionWizard.Advance | components/journal.tsx:342-358 | the footer button performs one `AdvanceStep`, so the index never passes the last question |
| JournalView.QuestionWizard.KeyDown | components/journal.tsx:275-284 | Enter without Shift performs one step; any other key, Shift+Enter included, changes nothing and does not save |
| JournalView.QuestionWizard.Back | components/journal.tsx:325-331 | back from question 0 returns to the list; otherwise the index goes down by one |
| JournalView.NoteOf | components/journal.tsx:165 | a blank note is stored as undefined, any other note trimmed |
| JournalView.NoteEditRoundTrip | components/journal.tsx:147-152 | opening a saved note for editing and saving it unchanged stores the same note |
| JournalView.SaveMood | components/journal.tsx:155-175 | nothing without a user or a selected mood; otherwise today's journal is found or created, then the edited entry is patched or a new entry added, with the note trimmed or dropped |
| JournalView.QuickMoodSubmit | components/journal.tsx:468-472 | nothing without a user or a selected mood; otherwise today's journal is found or created and gains a new entry with the trimmed or dropped note, the same store effect as `SaveMood` with no entry being edited |
| JournalView.TodayJournalIndex | lib/store.ts:161-174 | with distinct journal ids, today's journal (found or created) is at the first index dated today, which is also the first index with its id, so the patch by id in `handleSaveMood` reaches it |
| JournalView.SavedMoodShowsToday | components/journal.tsx:155-175 | a newly saved mood is the last entry of today's journal |
| JournalView.SaveQuestions | components/journal.tsx:191-203 | nothing without a user; otherwise today's journal, found or created, gets the map's entries as its answers |
| JournalView.InsertByCreated | components/journal.tsx:121 | inserting adds exactly the one journal: a permutation of the list with it |
| JournalView.InsertKeepsOrder | components/journal.tsx:121 | inserting into a newest-first list keeps it newest first |
| JournalView.SortNewestFirst | components/journal.tsx:121 | the sorted list is a permutation of the journals |
| JournalView.SortedNewestFirst | components/journal.tsx:121 | the sorted list is newest `createdAt` first |
| JournalView.FilterNewestFirst | components/journal.tsx:665-666 | filtering a newest-first list keeps it newest first |
| JournalView.HistoryIsPastNewestFirst | components/journal.tsx:661-667 | the history holds exactly the journals of other days than today, newest first |
| DashboardView.FocusTodo | components/dashboard.tsx:94 | the focus todo is an open focus todo from the list; there is none exactly when no todo qualifies |
| DashboardView.FocusIsFirst | components/dashboard.tsx:94 | the focus todo is the first open focus todo |
| DashboardView.OtherTodosAreTheRest | components/dashboard.tsx:95-97 | the list holds no completed todo and never the focus todo; it holds every open todo without the focus id, in the original order |
| DashboardView.NoFocusListsAllOpen | components/dashboard.tsx:95-97 | without a focus todo, a list of open todos is shown whole |
| DashboardView.TrimAll | components/dashboard.tsx:135 | every piece is trimmed, and the count is kept |
| DashboardView.ParseTags | components/dashboard.tsx:133-136 | every parsed tag is non-empty and trimmed |
| DashboardView.TagsRoundTrip | components/dashboard.tsx:122 | ", "-joining clean tags and parsing them again gives the same tags |
| DashboardView.Greeting | components/dashboard.tsx:44-49 | 早安 exactly before 12, 午安 exactly from 12 to before 18, 晚安 exactly from 18 |
| DashboardView.TogglePatch | components/dashboard.tsx:107 | the toggle patch sets `completed` to the negation |
| DashboardView.ToggleTwice | components/dashboard.tsx:99-109 | a toggle changes only the completed flag, and two toggles restore the todo |
| DashboardView.SaveEditPatch | components/dashboard.tsx:127-142 | no update exactly without a user, without a todo being edited, or with a blank title; the title goes as typed, the focus flag from the form, the due date as midnight UTC of the picked day, and the tags parsed; the completed flag, id, milestone and creation time are never sent |
| DashboardView.UntouchedEditKeepsTodo | components/dashboard.tsx:117-142 | opening the editor and saving it untouched leaves a todo with a title, clean tags and a midnight due date unchanged |
| DashboardView.ToggleClearsOverdue | components/dashboard.tsx:386 | completing an overdue todo clears the mark, and reopening brings it back |
| AddTaskDialog.ToggleTag | components/add-task-dialog.tsx:87-93 | the toggled tag's membership flips, an absent tag going at the end; every other tag keeps its membership |
| AddTaskDialog.ToggleTagTwice | components/add-task-dialog.tsx:88-92 | toggling an absent tag twice restores the selection |
| AddTaskDialog.ToggleTagNoRepeats | components/add-task-dialog.tsx:87-93 | a selection without repeats keeps none |
| AddTaskDialog.SubsequenceNoRepeats | components/add-task-dialog.tsx:89 | removing elements from a list without repeats leaves none, and adds no element |
| AddTaskDialog.ToggleMilestone | components/add-task-dialog.tsx:184-186 | clicking the selected milestone clears the selection to ""; clicking another selects it |
| AddTaskDialog.ToggleMilestoneTwice | components/add-task-dialog.tsx:184-186 | two clicks on one chip from no selection leave no selection |
| AddTaskDialog.SubmitPayload | components/add-task-dialog.tsx:65-77 | nothing is sent exactly without a user, with a blank title, or while a submit runs; the payload has the trimmed non-empty title, is not completed, falls due on the picked day, and links no milestone exactly when none is selected |
| AddTaskDialog.SubmittedTodoListed | components/add-task-dialog.tsx:70-77 | a submitted todo that is not the focus appears in the dashboard's list |
| AddTaskDialog.TaskForm.constructor | components/add-task-dialog.tsx:31-39 | the dialog opens empty, due today, with no submit running |
| AddTaskDialog.TaskForm.ResetForm | components/add-task-dialog.tsx:57-63 | clears the title, tags and milestone, unsets focus, and sets the due date to today |
| AddTaskDialog.TaskForm.ToggleTagInForm | components/add-task-dialog.tsx:87-93 | the selection becomes `ToggleTag` of the old one |
| AddTaskDialog.TaskForm.HandleSubmit | components/add-task-dialog.tsx:65-85 | when the payload exists, exactly that todo is appended, the form is reset and no submit is left running; otherwise neither the store nor the form changes |
| AddTaskDialog.TaskForm.Send | components/add-task-dialog.tsx:68-84 | the submitted todo, completed with the fresh id and creation time, is appended to the store and nothing else; afterwards the form is reset and no submit is running |
| UserSettings.ResultMessage | components/user-settings.tsx:37-41 | a success text exactly on success; otherwise the callback's error, or 更新失败 when it gives none |
| UserSettings.FieldToSend | components/user-settings.tsx:30-35 | nothing is sent exactly when the input is blank or equals the saved value; otherwise the trimmed input, never empty |
| UserSettings.SavedValueNotResent | components/user-settings.tsx:30 | once a trimmed value is saved, pressing again sends nothing |
| UserSettings.PaddedValueResent | components/user-settings.tsx:30-35 | a value with a trailing space is sent again after it was saved, because the comparison is on the untrimmed input |
| UserSettings.PasswordError | components/user-settings.tsx:64-72 | the length is checked before the confirmation; no error exactly when at least 6 characters and confirmed |
| UserSettings.SettingsForm.constructor | components/user-settings.tsx:15-26 | the name and address are prefilled from the user (empty without one), with no messages and nothing in progress |
| UserSettings.SettingsForm.UpdateUsername | components/user-settings.tsx:29-44 | sends `FieldToSend` of the name; when nothing is sent nothing changes, otherwise the message is the result's and the flag is cleared |
| UserSettings.SettingsForm.UpdateEmail | components/user-settings.tsx:46-61 | as for the name, with the e-mail texts |
| UserSettings.SettingsForm.UpdatePassword | components/user-settings.tsx:63-88 | a rejected password only sets the error message; an accepted one is sent as typed, the flag is cleared, and both fields are emptied exactly on success |
| Auth.Int32 | lib/auth-context.tsx:31-32 | ToInt32 gives the value in [-2^31, 2^31) congruent to its argument modulo 2^32 |
| Auth.Int32Congruent | lib/auth-context.tsx:31-32 | ToInt32 depends only on the value modulo 2^32 |
| Auth.ShiftRound | lib/auth-context.tsx:31-32 | `(hash << 5) - hash + char`, truncated, is `hash * 31 + char` modulo 2^32 |
| Auth.HashFold | lib/auth-context.tsx:28-33 | the hash value is a signed 32-bit integer |
| Auth.HexDigits | lib/auth-context.tsx:34 | base-16 digits without a leading zero |
| Auth.ToHex | lib/auth-context.tsx:34 | `toString(16)` starts with "-" exactly for negative values |
| Auth.HexDigitsRoundTrip | lib/auth-context.tsx:34 | the base-16 digits of n read back as n |
| Auth.HexRoundTrip | lib/auth-context.tsx:34 | `toString(16)` reads back as the number |
| Auth.ToHexInjective | lib/auth-context.tsx:34 | different hash values give different hash strings |
| Auth.SimpleHash | lib/auth-context.tsx:27-35 | the loop computes the fold of `h * 31 + code` modulo 2^32 from 0, in base 16 |
| Auth.HashExamples | lib/auth-context.tsx:27-35 | the empty string hashes to "0" and "a" to "61" |
| Auth.LoginMatch | lib/auth-context.tsx:54-57 | a user is found exactly when some stored user has the name and the hash of the password |
| Auth.RegisterKeepsNamesUnique | lib/auth-context.tsx:79-91 | registering keeps user names unique |
| Auth.RegisteredUserCanLogin | lib/auth-context.tsx:71-101 | after registering, logging in with the same name and password finds the new account |
| Auth.WrongPasswordRefused | lib/auth-context.tsx:54-57 | with unique names, a password whose hash differs from the stored one is refused |
| Auth.AuthProvider.constructor | lib/auth-context.tsx:37-38 | the provider starts over the stored users with nobody signed in |
| Auth.AuthProvider.Login | lib/auth-context.tsx:50-69 | succeeds exactly when some stored user has the name and the hashed password; the session then holds that user without a password; a failure changes nothing |
| Auth.AuthProvider.Register | lib/auth-context.tsx:71-101 | a taken name changes nothing; otherwise exactly one user with the hashed password is appended and signed in without the password |
| Auth.AuthProvider.Logout | lib/auth-context.tsx:103-106 | nobody is signed in afterwards |
| Auth.UseAuth | lib/auth-context.tsx:115-121 | the context inside a provider; outside one, the error "useAuth must be used within an AuthProvider" |

## Left out

- Persistence: the `localStorage` reads and writes and the JSON round trip of every record. Each storage key is a sequence field, and a write is an assignment.
- The session restore on load and the `isLoading` flag of the authentication context: they only read browser storage.
- Ids and clocks: `crypto.randomUUID()` and `Date.now()` are parameters. `addMoodEntry` reads the clock twice; the model uses one `now` for both reads.
- Calendar arithmetic: `setDate`, the local-time weekday and DST, and the locale date strings. Days are UTC day numbers and today's weekday is an argument. The source mixes a local weekday with a UTC date; the model does not capture that mismatch.
- `getDaysRemaining`: it depends on the wall clock and is display-only.
- Floating point: NaN, infinities, `Number.isFinite`, and binary rounding of ties in `Math.round`. The model uses exact reals, so a milestone with NaN values or an unparsable date is not modelled.
- UTF-16: strings are sequences of code points. `length`, `trim` and `charCodeAt` on characters outside the Basic Multilingual Plane are not modelled as UTF-16 code units.
- JavaScript object key order: integer-like question ids would enumerate first. The model keeps insertion order, which is what the four fixed question ids get.
- JournalView.SortNewestFirst: the sort is proved newest first and a permutation, but not stable; the order among equal `createdAt` values is left open.
- Async flow, `try`/`finally` and reloading after a store call: each handler runs to completion, and the account-update calls of the settings page are a given success or error value.
- The dialog callbacks `onOpenChange` and `onTaskAdded`, and closing dialogs.
- Thin pass-through handlers that only guard on a signed-in user and call a store operation: delete a todo, delete or update a milestone, delete a mood entry. The store operations they call are modelled.
- The milestone edit form and its save.
- The inline mood form's reset after `handleQuickMoodSubmit` (clearing the selected mood and note and hiding the input): view state only; its store effect is `QuickMoodSubmit`.
- Rendering: JSX, charts, the SVG progress ring, animations and the chart colours of `COLOR_THEMES`.
- Files that only delegate or navigate: components/vision-board.tsx, components/auth-form.tsx, components/growth-loop-app.tsx, components/floating-dock.tsx and app/.
- The always-true `i >= 0` in the baseline condition of `getWeeklyEnergy`: the baseline is modelled as applying whenever no component applied.
