/** The per-user tables of lib/store.ts: todos, milestones, visions and
    journals, with their add / update / delete rules and the nested
    mood-entry operations. One `UserStore` object stands for one user's four
    storage keys; reading and writing browser storage is not modelled, so a
    write is an assignment to the field. */
module Store {
  import opened Basics
  import opened Types
  import Lists

  // ---------------------------------------------------------------------
  // Inputs of the add operations: a record without its id and timestamps.

  datatype NewTodo = NewTodo(
    title: string, isFocus: bool, completed: bool, milestoneId: Option<string>,
    dueDate: Millis, tags: seq<string>)
  {
    function Complete(id: string, now: Millis): Todo {
      Todo(id, title, isFocus, completed, milestoneId, dueDate, tags, now)
    }
  }

  datatype NewMilestone = NewMilestone(
    title: string, description: Option<string>, kind: MilestoneType,
    startValue: real, targetValue: real, currentValue: real,
    deadline: Millis, colorTheme: ColorTheme)
  {
    function Complete(id: string, now: Millis): Milestone {
      Milestone(id, title, description, kind, startValue, targetValue, currentValue,
                deadline, colorTheme, now)
    }
  }

  datatype NewVision = NewVision(
    title: string, description: Option<string>, imageUrl: Option<string>, category: string)
  {
    function Complete(id: string, now: Millis): Vision {
      Vision(id, title, description, imageUrl, category, now)
    }
  }

  datatype NewJournal = NewJournal(date: Day, moodEntries: Option<seq<MoodEntry>>, answers: seq<Answer>)
  {
    function Complete(id: string, now: Millis): Journal {
      Journal(id, date, moodEntries, answers, now, now)
    }
  }

  // ---------------------------------------------------------------------
  // Partial records merged with `{ ...record, ...updates }`: a `None` field
  // is absent from the patch and keeps the record's value. An optional
  // field of the record is `Option<Option<_>>` in its patch, so that an
  // explicit `undefined` can be written.

  datatype TodoPatch = TodoPatch(
    id: Option<string>, title: Option<string>, isFocus: Option<bool>, completed: Option<bool>,
    milestoneId: Option<Option<string>>, dueDate: Option<Millis>, tags: Option<seq<string>>,
    createdAt: Option<Millis>)
  {
    function Apply(t: Todo): Todo {
      Todo(id.GetOr(t.id), title.GetOr(t.title), isFocus.GetOr(t.isFocus),
           completed.GetOr(t.completed), milestoneId.GetOr(t.milestoneId),
           dueDate.GetOr(t.dueDate), tags.GetOr(t.tags), createdAt.GetOr(t.createdAt))
    }
  }

  datatype MilestonePatch = MilestonePatch(
    id: Option<string>, title: Option<string>, description: Option<Option<string>>,
    kind: Option<MilestoneType>, startValue: Option<real>, targetValue: Option<real>,
    currentValue: Option<real>, deadline: Option<Millis>, colorTheme: Option<ColorTheme>,
    createdAt: Option<Millis>)
  {
    function Apply(m: Milestone): Milestone {
      Milestone(id.GetOr(m.id), title.GetOr(m.title), description.GetOr(m.description),
                kind.GetOr(m.kind), startValue.GetOr(m.startValue),
                targetValue.GetOr(m.targetValue), currentValue.GetOr(m.currentValue),
                deadline.GetOr(m.deadline), colorTheme.GetOr(m.colorTheme),
                createdAt.GetOr(m.createdAt))
    }
  }

  datatype VisionPatch = VisionPatch(
    id: Option<string>, title: Option<string>, description: Option<Option<string>>,
    imageUrl: Option<Option<string>>, category: Option<string>, createdAt: Option<Millis>)
  {
    function Apply(v: Vision): Vision {
      Vision(id.GetOr(v.id), title.GetOr(v.title), description.GetOr(v.description),
             imageUrl.GetOr(v.imageUrl), category.GetOr(v.category), createdAt.GetOr(v.createdAt))
    }
  }

  /** `updatedAt` is absent: `updateJournal` always overwrites it with the clock. */
  datatype JournalPatch = JournalPatch(
    id: Option<string>, date: Option<Day>, moodEntries: Option<Option<seq<MoodEntry>>>,
    answers: Option<seq<Answer>>, createdAt: Option<Millis>)
  {
    function Apply(j: Journal, now: Millis): Journal {
      Journal(id.GetOr(j.id), date.GetOr(j.date), moodEntries.GetOr(j.moodEntries),
              answers.GetOr(j.answers), createdAt.GetOr(j.createdAt), now)
    }
  }

  /** The `{ mood?, note? }` argument of `updateMoodEntry`. */
  datatype MoodPatch = MoodPatch(mood: Option<Mood>, note: Option<Option<string>>)
  {
    function Apply(e: MoodEntry): MoodEntry {
      e.(mood := mood.GetOr(e.mood), note := note.GetOr(e.note))
    }
  }

  // ---------------------------------------------------------------------
  // Journal rules as functions of the journal list.

  /** `getJournalByDate`: the first journal dated `date`. */
  function JournalOn(js: seq<Journal>, date: Day): (r: Option<Journal>)
    ensures r.None? <==> forall i :: 0 <= i < |js| ==> js[i].date != date
    ensures r.Some? ==> r.value.date == date && r.value == js[Lists.IndexOfKey(js, JournalDate, date)]
  {
    var i := Lists.IndexOfKey(js, JournalDate, date);
    if i == -1 then None else Some(js[i])
  }

  /** The journal `getOrCreateTodayJournal` creates when today has none. */
  function EmptyJournal(today: Day, id: string, now: Millis): Journal {
    NewJournal(today, Some([]), []).Complete(id, now)
  }

  /** `getOrCreateTodayJournal` as a function: the journal returned and the new list. */
  function TodayJournal(js: seq<Journal>, today: Day, id: string, now: Millis): (Journal, seq<Journal>) {
    match JournalOn(js, today)
    case Some(j) => (j, js)
    case None => (EmptyJournal(today, id, now), js + [EmptyJournal(today, id, now)])
  }

  /** At most one journal per calendar date. */
  predicate DatesUnique(js: seq<Journal>) {
    forall i, k :: 0 <= i < k < |js| ==> js[i].date != js[k].date
  }

  /** Getting today's journal twice creates at most one journal: the second
      call returns the journal of the first and changes nothing. The result
      is always dated today. */
  lemma TodayJournalOnce(js: seq<Journal>, today: Day, id1: string, now1: Millis, id2: string, now2: Millis)
    ensures TodayJournal(js, today, id1, now1).0.date == today
    ensures |TodayJournal(js, today, id1, now1).1| <= |js| + 1
    ensures var (j1, s1) := TodayJournal(js, today, id1, now1);
            TodayJournal(s1, today, id2, now2) == (j1, s1)
  {
    if JournalOn(js, today).None? {
      var j := EmptyJournal(today, id1, now1);
      Lists.FindAppended(js, JournalDate, j);
    }
  }

  /** Getting today's journal keeps the one-journal-per-day rule. */
  lemma TodayJournalKeepsDatesUnique(js: seq<Journal>, today: Day, id: string, now: Millis)
    requires DatesUnique(js)
    ensures DatesUnique(TodayJournal(js, today, id, now).1)
  {
    if JournalOn(js, today).None? {
      var s := js + [EmptyJournal(today, id, now)];
      forall i, k | 0 <= i < k < |s| ensures s[i].date != s[k].date {
        if k == |js| { assert s[i] == js[i]; }
      }
    }
  }

  /** `addMoodEntry` on the journal it finds: the list, created if missing, gains `e`. */
  function WithEntryAdded(j: Journal, e: MoodEntry, now: Millis): Journal {
    j.(moodEntries := Some(Entries(j) + [e]), updatedAt := now)
  }

  /** `updateMoodEntry` on the journal it finds: only the first entry with
      `entryId` is patched; a missing list or an unknown entry writes nothing. */
  function WithEntryPatched(j: Journal, entryId: string, p: MoodPatch, now: Millis): Journal {
    match j.moodEntries
    case None => j
    case Some(es) =>
      var i := Lists.IndexOfKey(es, MoodEntryId, entryId);
      if i == -1 then j
      else j.(moodEntries := Some(es[i := p.Apply(es[i])]), updatedAt := now)
  }

  /** `deleteMoodEntry` on the journal it finds: every entry with `entryId`
      goes; a missing list writes nothing. */
  function WithEntryRemoved(j: Journal, entryId: string, now: Millis): Journal {
    match j.moodEntries
    case None => j
    case Some(es) => j.(moodEntries := Some(Lists.RemoveKey(es, MoodEntryId, entryId)), updatedAt := now)
  }

  /** Deleting a freshly added mood entry restores the journal's entries. */
  lemma RemoveAddedEntry(j: Journal, e: MoodEntry, now1: Millis, now2: Millis)
    requires forall i :: 0 <= i < |Entries(j)| ==> Entries(j)[i].id != e.id
    ensures WithEntryRemoved(WithEntryAdded(j, e, now1), e.id, now2).moodEntries == Some(Entries(j))
  {
    Lists.RemoveAppended(Entries(j), MoodEntryId, e);
  }

  /** Patching a mood entry leaves the number of entries and every other entry as it was. */
  lemma PatchedEntryOnly(j: Journal, entryId: string, p: MoodPatch, now: Millis)
    ensures var r := WithEntryPatched(j, entryId, p, now);
      r.moodEntries.Some? == j.moodEntries.Some? && |Entries(r)| == |Entries(j)| &&
      r.id == j.id && r.date == j.date && r.answers == j.answers &&
      forall i :: 0 <= i < |Entries(j)| && Entries(j)[i].id != entryId ==> Entries(r)[i] == Entries(j)[i]
  {
  }

  // ---------------------------------------------------------------------
  // The store.

  class UserStore {
    var todos: seq<Todo>
    var milestones: seq<Milestone>
    var visions: seq<Vision>
    var journals: seq<Journal>

    /** A user with nothing stored yet: every key reads as an empty list. */
    constructor ()
      ensures todos == [] && milestones == [] && visions == [] && journals == []
    {
      todos, milestones, visions, journals := [], [], [], [];
    }

    /** `addTodo`: append the record with a fresh id and the current time. */
    method AddTodo(todo: NewTodo, freshId: string, now: Millis) returns (created: Todo)
      requires forall i :: 0 <= i < |todos| ==> todos[i].id != freshId
      modifies this`todos
      ensures created == todo.Complete(freshId, now)
      ensures todos == old(todos) + [created]
    {
      created := todo.Complete(freshId, now);
      todos := todos + [created];
    }

    /** `updateTodo`: merge `updates` into the first todo with `todoId`. */
    method UpdateTodo(todoId: string, updates: TodoPatch)
      modifies this`todos
      ensures todos == Lists.PatchFirst(old(todos), TodoId, todoId, t => updates.Apply(t))
    {
      var index := Lists.IndexOfKey(todos, TodoId, todoId);
      if index != -1 {
        todos := todos[index := updates.Apply(todos[index])];
      }
    }

    /** `deleteTodo`: drop every todo with `todoId`. */
    method DeleteTodo(todoId: string)
      modifies this`todos
      ensures todos == Lists.RemoveKey(old(todos), TodoId, todoId)
    {
      todos := Lists.RemoveKey(todos, TodoId, todoId);
    }

    /** `addMilestone`. */
    method AddMilestone(milestone: NewMilestone, freshId: string, now: Millis) returns (created: Milestone)
      requires forall i :: 0 <= i < |milestones| ==> milestones[i].id != freshId
      modifies this`milestones
      ensures created == milestone.Complete(freshId, now)
      ensures milestones == old(milestones) + [created]
    {
      created := milestone.Complete(freshId, now);
      milestones := milestones + [created];
    }

    /** `updateMilestone`. */
    method UpdateMilestone(milestoneId: string, updates: MilestonePatch)
      modifies this`milestones
      ensures milestones == Lists.PatchFirst(old(milestones), MilestoneId, milestoneId, m => updates.Apply(m))
    {
      var index := Lists.IndexOfKey(milestones, MilestoneId, milestoneId);
      if index != -1 {
        milestones := milestones[index := updates.Apply(milestones[index])];
      }
    }

    /** `deleteMilestone`. */
    method DeleteMilestone(milestoneId: string)
      modifies this`milestones
      ensures milestones == Lists.RemoveKey(old(milestones), MilestoneId, milestoneId)
    {
      milestones := Lists.RemoveKey(milestones, MilestoneId, milestoneId);
    }

    /** `addVision`. */
    method AddVision(vision: NewVision, freshId: string, now: Millis) returns (created: Vision)
      requires forall i :: 0 <= i < |visions| ==> visions[i].id != freshId
      modifies this`visions
      ensures created == vision.Complete(freshId, now)
      ensures visions == old(visions) + [created]
    {
      created := vision.Complete(freshId, now);
      visions := visions + [created];
    }

    /** `updateVision`. */
    method UpdateVision(visionId: string, updates: VisionPatch)
      modifies this`visions
      ensures visions == Lists.PatchFirst(old(visions), VisionId, visionId, v => updates.Apply(v))
    {
      var index := Lists.IndexOfKey(visions, VisionId, visionId);
      if index != -1 {
        visions := visions[index := updates.Apply(visions[index])];
      }
    }

    /** `deleteVision`. */
    method DeleteVision(visionId: string)
      modifies this`visions
      ensures visions == Lists.RemoveKey(old(visions), VisionId, visionId)
    {
      visions := Lists.RemoveKey(visions, VisionId, visionId);
    }

    /** `addJournal`: both timestamps are the current time. */
    method AddJournal(journal: NewJournal, freshId: string, now: Millis) returns (created: Journal)
      requires forall i :: 0 <= i < |journals| ==> journals[i].id != freshId
      modifies this`journals
      ensures created == journal.Complete(freshId, now)
      ensures journals == old(journals) + [created]
    {
      created := journal.Complete(freshId, now);
      journals := journals + [created];
    }

    /** `getJournalByDate`. */
    function JournalByDate(date: Day): (r: Option<Journal>)
      reads this
      ensures r == JournalOn(journals, date)
      ensures r.Some? ==> r.value in journals && r.value.date == date
    {
      JournalOn(journals, date)
    }

    /** `getOrCreateTodayJournal`: today's journal, created empty if missing. */
    method GetOrCreateTodayJournal(today: Day, freshId: string, now: Millis) returns (journal: Journal)
      requires forall i :: 0 <= i < |journals| ==> journals[i].id != freshId
      modifies this`journals
      ensures (journal, journals) == TodayJournal(old(journals), today, freshId, now)
    {
      var existing := JournalByDate(today);
      if existing.Some? {
        journal := existing.value;
      } else {
        journal := AddJournal(NewJournal(today, Some([]), []), freshId, now);
      }
    }

    /** `addMoodEntry`: append an entry to the journal with `journalId`. */
    method AddMoodEntry(journalId: string, mood: Mood, note: Option<string>, entryId: string, now: Millis)
      modifies this`journals
      ensures journals == Lists.PatchFirst(old(journals), JournalId, journalId,
                                           j => WithEntryAdded(j, MoodEntry(entryId, mood, note, now), now))
    {
      var index := Lists.IndexOfKey(journals, JournalId, journalId);
      if index != -1 {
        var newEntry := MoodEntry(entryId, mood, note, now);
        journals := journals[index := WithEntryAdded(journals[index], newEntry, now)];
      }
    }

    /** `updateMoodEntry`. */
    method UpdateMoodEntry(journalId: string, entryId: string, updates: MoodPatch, now: Millis)
      modifies this`journals
      ensures journals == Lists.PatchFirst(old(journals), JournalId, journalId,
                                           j => WithEntryPatched(j, entryId, updates, now))
    {
      var journalIndex := Lists.IndexOfKey(journals, JournalId, journalId);
      if journalIndex != -1 {
        var journal := journals[journalIndex];
        if journal.moodEntries.None? {
          // the list is only created in a copy that is never written back
          return;
        }
        var entries := journal.moodEntries.value;
        var entryIndex := Lists.IndexOfKey(entries, MoodEntryId, entryId);
        if entryIndex != -1 {
          entries := entries[entryIndex := updates.Apply(entries[entryIndex])];
          journals := journals[journalIndex := journal.(moodEntries := Some(entries), updatedAt := now)];
        }
      }
    }

    /** `deleteMoodEntry`. */
    method DeleteMoodEntry(journalId: string, entryId: string, now: Millis)
      modifies this`journals
      ensures journals == Lists.PatchFirst(old(journals), JournalId, journalId,
                                           j => WithEntryRemoved(j, entryId, now))
    {
      var journalIndex := Lists.IndexOfKey(journals, JournalId, journalId);
      if journalIndex != -1 {
        var journal := journals[journalIndex];
        if journal.moodEntries.None? {
          return;
        }
        var entries := Lists.RemoveKey(journal.moodEntries.value, MoodEntryId, entryId);
        journals := journals[journalIndex := journal.(moodEntries := Some(entries), updatedAt := now)];
      }
    }

    /** `updateJournal`: merge `updates` and stamp `updatedAt`. */
    method UpdateJournal(journalId: string, updates: JournalPatch, now: Millis)
      modifies this`journals
      ensures journals == Lists.PatchFirst(old(journals), JournalId, journalId, j => updates.Apply(j, now))
    {
      var index := Lists.IndexOfKey(journals, JournalId, journalId);
      if index != -1 {
        journals := journals[index := updates.Apply(journals[index], now)];
      }
    }
  }
}
