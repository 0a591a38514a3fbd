/** The logic of components/journal.tsx: the average mood shown for a
    journal, the mood faces, the answers map edited by the question wizard
    and its conversion to and from the stored answer list, the wizard's
    navigation, saving a mood or the answers, and the history list. */
module JournalView {
  import opened Basics
  import opened Types
  import opened Numbers
  import Text
  import Lists
  import Store
  import Metrics

  // ---------------------------------------------------------------------
  // Moods

  /** One of the five selectable moods with the face drawn for it. */
  datatype MoodStyle = MoodStyle(value: int, emoji: string, caption: string)

  const Moods: seq<MoodStyle> := [
    MoodStyle(5, "Grinning", "非常开心"),
    MoodStyle(4, "Smile", "开心"),
    MoodStyle(3, "Neutral", "一般"),
    MoodStyle(2, "Sad", "低落"),
    MoodStyle(1, "Tired", "疲惫")
  ]

  function HasValue(mood: int): MoodStyle -> bool {
    (s: MoodStyle) => s.value == mood
  }

  /** `MoodEmoji`: the style of a mood value; an unknown value is drawn
      with the neutral face. */
  function FaceOf(mood: int): (r: MoodStyle)
    ensures r in Moods
    ensures 1 <= mood <= 5 ==> r.value == mood
    ensures !(1 <= mood <= 5) ==> r == Moods[2] && r.value == 3
  {
    var found := Lists.Find(Moods, HasValue(mood));
    assert 1 <= mood <= 5 ==> HasValue(mood)(Moods[5 - mood]);
    found.GetOr(Moods[2])
  }

  /** `getAverageMood`: the rounded mean level, 3 for a journal without entries. */
  function AverageMood(j: Journal): (r: Mood)
    ensures |Entries(j)| == 0 ==> r == 3
  {
    var es := Entries(j);
    if |es| == 0 then 3
    else
      var n := |es| as real;
      var sum := Metrics.MoodSum(es) as real;
      RatioBetween(sum, n, 1.0, 5.0);
      RoundBetween(1, sum / n, 5);
      Round(sum / n)
  }

  /** The average of a single entry is that entry's level, and a history
      row always draws the face of its own average. */
  lemma AverageOfOne(j: Journal)
    requires |Entries(j)| == 1
    ensures AverageMood(j) == Entries(j)[0].mood
    ensures FaceOf(AverageMood(j)).value == AverageMood(j)
  {
    assert Entries(j)[..0] == [];
    RoundInt(Entries(j)[0].mood);
  }

  /** Entries all at one level average to that level. */
  lemma {:induction false} AverageOfEqual(es: seq<MoodEntry>, m: Mood)
    requires |es| > 0
    requires forall i :: 0 <= i < |es| ==> es[i].mood == m
    ensures Metrics.MoodSum(es) == m * |es|
  {
    if |es| > 1 {
      AverageOfEqual(es[..|es| - 1], m);
    }
  }

  /** A journal whose entries share one level shows that level. */
  lemma AverageOfUniform(j: Journal, m: Mood)
    requires |Entries(j)| > 0
    requires forall i :: 0 <= i < |Entries(j)| ==> Entries(j)[i].mood == m
    ensures AverageMood(j) == m
  {
    var es := Entries(j);
    AverageOfEqual(es, m);
    assert (m * |es|) as real / |es| as real == m as real;
    RoundInt(m);
  }

  // ---------------------------------------------------------------------
  // The answers map

  /** The wizard's `Record<string, string>` of answers by question id, as
      the list of its entries in insertion order. */
  type AnswerMap = seq<(string, string)>

  /** No question id occurs twice. */
  predicate KeysUnique(m: AnswerMap) {
    forall i, k :: 0 <= i < k < |m| ==> m[i].0 != m[k].0
  }

  /** `m[k]`. */
  function Lookup(m: AnswerMap, k: string): (r: Option<string>)
    ensures r.None? <==> forall i :: 0 <= i < |m| ==> m[i].0 != k
    ensures r.Some? ==> exists i :: 0 <= i < |m| && m[i] == (k, r.value)
  {
    if |m| == 0 then None
    else if m[0].0 == k then Some(m[0].1)
    else Lookup(m[1..], k)
  }

  /** `m[k] = v` (also `{ ...m, [k]: v }`): an existing key keeps its place
      and gets the new value, a new key goes at the end. */
  function Put(m: AnswerMap, k: string, v: string): (r: AnswerMap)
    requires KeysUnique(m)
    ensures KeysUnique(r)
    ensures Lookup(r, k) == Some(v)
    ensures forall k2 :: k2 != k ==> Lookup(r, k2) == Lookup(m, k2)
    ensures |r| == if Lookup(m, k).None? then |m| + 1 else |m|
  {
    var i := Lists.IndexWhere(m, (e: (string, string)) => e.0 == k);
    if i == -1 then
      var r := m + [(k, v)];
      assert forall k2 :: k2 != k ==> Lookup(r, k2) == Lookup(m, k2) by {
        forall k2 | k2 != k ensures Lookup(r, k2) == Lookup(m, k2) {
          LookupAppend(m, k, v, k2);
        }
      }
      LookupAppend(m, k, v, k);
      r
    else
      var r := m[i := (k, v)];
      LookupUpdate(m, i, k, v);
      r
  }

  /** Looking up in a map with one entry appended at the end. */
  lemma {:induction false} LookupAppend(m: AnswerMap, k: string, v: string, k2: string)
    requires forall i :: 0 <= i < |m| ==> m[i].0 != k
    ensures Lookup(m + [(k, v)], k2) == if k2 == k then Some(v) else Lookup(m, k2)
  {
    if |m| > 0 {
      assert (m + [(k, v)])[1..] == m[1..] + [(k, v)];
      LookupAppend(m[1..], k, v, k2);
    }
  }

  /** Looking up in a map whose entry at `i`, key `k`, gets a new value. */
  lemma {:induction false} LookupUpdate(m: AnswerMap, i: nat, k: string, v: string)
    requires KeysUnique(m)
    requires i < |m| && m[i].0 == k
    ensures KeysUnique(m[i := (k, v)])
    ensures Lookup(m[i := (k, v)], k) == Some(v)
    ensures forall k2 :: k2 != k ==> Lookup(m[i := (k, v)], k2) == Lookup(m, k2)
  {
    if i > 0 {
      LookupUpdate(m[1..], i - 1, k, v);
      assert m[i := (k, v)][1..] == m[1..][i - 1 := (k, v)];
    }
  }

  /** The map `loadData` builds from a stored answer list: each answer
      written in turn, so a later answer to the same question wins. */
  function AnswersToMap(answers: seq<Answer>): (m: AnswerMap)
    ensures KeysUnique(m)
  {
    if |answers| == 0 then []
    else
      var last := answers[|answers| - 1];
      Put(AnswersToMap(answers[..|answers| - 1]), last.questionId, last.content)
  }

  /** `loadData`'s loop filling `answerMap`. */
  method LoadAnswers(answers: seq<Answer>) returns (answerMap: AnswerMap)
    ensures answerMap == AnswersToMap(answers)
  {
    answerMap := [];
    for i := 0 to |answers|
      invariant answerMap == AnswersToMap(answers[..i])
    {
      assert answers[..i + 1][..i] == answers[..i];
      answerMap := Put(answerMap, answers[i].questionId, answers[i].content);
    }
    assert answers[..|answers|] == answers;
  }

  /** `Object.entries(answers).map(...)` in `handleSaveQuestions`. */
  function MapToAnswers(m: AnswerMap): (r: seq<Answer>)
    ensures |r| == |m|
    ensures forall i :: 0 <= i < |m| ==> r[i] == Answer(m[i].0, m[i].1)
  {
    if |m| == 0 then [] else MapToAnswers(m[..|m| - 1]) + [Answer(m[|m| - 1].0, m[|m| - 1].1)]
  }

  /** No question is answered twice in a list. */
  predicate QuestionIdsUnique(answers: seq<Answer>) {
    forall i, k :: 0 <= i < k < |answers| ==> answers[i].questionId != answers[k].questionId
  }

  /** A saved answer list names each question once. */
  lemma SavedIdsUnique(m: AnswerMap)
    requires KeysUnique(m)
    ensures QuestionIdsUnique(MapToAnswers(m))
  {
  }

  /** Saving the map and loading it again gives the same map. */
  lemma {:induction false} MapRoundTrip(m: AnswerMap)
    requires KeysUnique(m)
    ensures AnswersToMap(MapToAnswers(m)) == m
  {
    if |m| > 0 {
      var init := m[..|m| - 1];
      var r := MapToAnswers(m);
      assert r[..|r| - 1] == MapToAnswers(init);
      MapRoundTrip(init);
      assert forall i :: 0 <= i < |init| ==> init[i].0 != m[|m| - 1].0;
      assert Lists.IndexWhere(init, (e: (string, string)) => e.0 == m[|m| - 1].0) == -1;
      assert init + [m[|m| - 1]] == m;
    }
  }

  /** Loading a list that answers each question once and saving it again
      gives the same list. */
  lemma ListRoundTrip(answers: seq<Answer>)
    requires QuestionIdsUnique(answers)
    ensures MapToAnswers(AnswersToMap(answers)) == answers
  {
    AnswersAsMap(answers);
  }

  /** A list that answers each question once loads as its own entries. */
  lemma {:induction false} AnswersAsMap(answers: seq<Answer>)
    requires QuestionIdsUnique(answers)
    ensures |AnswersToMap(answers)| == |answers|
    ensures forall i :: 0 <= i < |answers| ==>
      AnswersToMap(answers)[i] == (answers[i].questionId, answers[i].content)
  {
    if |answers| > 0 {
      var init := answers[..|answers| - 1];
      AnswersAsMap(init);
      var m := AnswersToMap(init);
      var last := answers[|answers| - 1];
      assert forall i :: 0 <= i < |m| ==> m[i].0 != last.questionId by {
        forall i | 0 <= i < |m| ensures m[i].0 != last.questionId {
          assert m[i].0 == answers[i].questionId;
        }
      }
      assert Lists.IndexWhere(m, (e: (string, string)) => e.0 == last.questionId) == -1;
    }
  }

  /** After loading, each question shows the content of its last answer. */
  lemma {:induction false} LastAnswerWins(answers: seq<Answer>, i: nat)
    requires i < |answers|
    requires forall k :: i < k < |answers| ==> answers[k].questionId != answers[i].questionId
    ensures Lookup(AnswersToMap(answers), answers[i].questionId) == Some(answers[i].content)
  {
    if i < |answers| - 1 {
      LastAnswerWins(answers[..|answers| - 1], i);
    }
  }

  // ---------------------------------------------------------------------
  // Question wizard

  /** The four prompts, by id. */
  const QuestionIds: seq<string> := ["grateful", "achievement", "learn", "tomorrow"]

  type QuestionIndex = i: int | 0 <= i < 4

  datatype ViewMode = ListMode | ViewJournalMode | MoodMode | QuestionsMode | BulkEditMode | PreviewMode

  /** Enter (without Shift), or the footer button: the next question, or
      on the last question a save instead. */
  function AdvanceStep(i: QuestionIndex): (r: (QuestionIndex, bool))
    ensures r.1 <==> i == |QuestionIds| - 1
    ensures !r.1 ==> r.0 == i + 1
    ensures r.1 ==> r.0 == i
  {
    if i < |QuestionIds| - 1 then (i + 1, false) else (i, true)
  }

  /** Starting from the first question, three steps reach the last one and
      the fourth saves. */
  lemma FourthStepSaves()
    ensures AdvanceStep(0) == (1, false)
    ensures AdvanceStep(AdvanceStep(0).0) == (2, false)
    ensures AdvanceStep(AdvanceStep(AdvanceStep(0).0).0) == (3, false)
    ensures AdvanceStep(AdvanceStep(AdvanceStep(AdvanceStep(0).0).0).0) == (3, true)
  {
  }

  /** The question wizard's state: which question is shown and which view. */
  class QuestionWizard {
    var index: QuestionIndex
    var mode: ViewMode

    constructor ()
      ensures index == 0 && mode == ListMode
    {
      index, mode := 0, ListMode;
    }

    /** `handleStartQuestions`. */
    method Start()
      modifies this
      ensures index == 0 && mode == QuestionsMode
    {
      index := 0;
      mode := QuestionsMode;
    }

    /** The "next" or "done" footer button: `save` asks for `handleSaveQuestions`. */
    method Advance() returns (save: bool)
      modifies this`index
      ensures (index, save) == AdvanceStep(old(index))
    {
      if index < |QuestionIds| - 1 {
        index := index + 1;
        save := false;
      } else {
        save := true;
      }
    }

    /** `handleQuestionKeyDown`: only Enter without Shift advances; Shift+Enter
      is a newline in the answer. */
    method KeyDown(key: string, shiftKey: bool) returns (save: bool)
      modifies this`index
      ensures key == "Enter" && !shiftKey ==> (index, save) == AdvanceStep(old(index))
      ensures !(key == "Enter" && !shiftKey) ==> index == old(index) && !save
    {
      save := false;
      if key == "Enter" && !shiftKey {
        save := Advance();
      }
    }

    /** The back button: on the first question it leaves for the list view. */
    method Back()
      modifies this
      ensures old(index) == 0 ==> index == 0 && mode == ListMode
      ensures old(index) > 0 ==> index == old(index) - 1 && mode == old(mode)
    {
      if index == 0 {
        mode := ListMode;
      } else {
        index := index - 1;
      }
    }
  }

  // ---------------------------------------------------------------------
  // Saving

  /** `moodNote.trim() || undefined`. */
  function NoteOf(s: string): (r: Option<string>)
    ensures r.None? <==> Text.IsBlank(s)
    ensures r.Some? ==> r.value == Text.Trim(s) && Text.IsTrimmed(r.value)
  {
    var t := Text.Trim(s);
    if t == "" then None else Some(t)
  }

  /** Opening a saved note for editing and saving it unchanged stores the
      same note: `entry.note || ""` is read back by `NoteOf`. */
  lemma NoteEditRoundTrip(note: Option<string>)
    requires note.Some? ==> Text.IsTrimmed(note.value) && note.value != ""
    ensures NoteOf(note.GetOr("")) == note
  {
    if note.Some? {
      Text.TrimTrimmed(note.value);
    }
  }

  /** Journal ids are pairwise distinct. */
  predicate JournalIdsUnique(js: seq<Journal>) {
    forall i, k :: 0 <= i < k < |js| ==> js[i].id != js[k].id
  }

  /** `handleSaveMood`: nothing without a user or a selected mood; otherwise
      today's journal is found or created, then the edited entry is patched
      or a new entry is added, with the note trimmed or dropped. */
  method SaveMood(store: Store.UserStore, signedIn: bool, selectedMood: Option<Mood>, moodNote: string,
                  editing: Option<MoodEntry>, today: Day, freshJournalId: string, freshEntryId: string, now: Millis)
    requires forall i :: 0 <= i < |store.journals| ==> store.journals[i].id != freshJournalId
    modifies store`journals
    ensures !signedIn || selectedMood.None? ==> store.journals == old(store.journals)
    ensures signedIn && selectedMood.Some? ==>
      var (journal, js) := Store.TodayJournal(old(store.journals), today, freshJournalId, now);
      store.journals == SavedMood(js, journal.id, selectedMood.value, moodNote, editing, freshEntryId, now)
  {
    if !signedIn || selectedMood.None? {
      return;
    }
    var journal := store.GetOrCreateTodayJournal(today, freshJournalId, now);
    if editing.Some? {
      store.UpdateMoodEntry(journal.id, editing.value.id, Store.MoodPatch(selectedMood, Some(NoteOf(moodNote))), now);
    } else {
      store.AddMoodEntry(journal.id, selectedMood.value, NoteOf(moodNote), freshEntryId, now);
    }
  }

  /** `handleQuickMoodSubmit`, the Enter path of the inline mood form: the
      same guard, then a new entry on today's journal, found or created. */
  method QuickMoodSubmit(store: Store.UserStore, signedIn: bool, selectedMood: Option<Mood>, moodNote: string,
                         today: Day, freshJournalId: string, freshEntryId: string, now: Millis)
    requires forall i :: 0 <= i < |store.journals| ==> store.journals[i].id != freshJournalId
    modifies store`journals
    ensures !signedIn || selectedMood.None? ==> store.journals == old(store.journals)
    ensures signedIn && selectedMood.Some? ==>
      var (journal, js) := Store.TodayJournal(old(store.journals), today, freshJournalId, now);
      store.journals == SavedMood(js, journal.id, selectedMood.value, moodNote, None, freshEntryId, now)
  {
    if !signedIn || selectedMood.None? {
      return;
    }
    var journal := store.GetOrCreateTodayJournal(today, freshJournalId, now);
    store.AddMoodEntry(journal.id, selectedMood.value, NoteOf(moodNote), freshEntryId, now);
  }

  /** The journal list after the mood step of `handleSaveMood`. */
  function SavedMood(js: seq<Journal>, journalId: string, mood: Mood, moodNote: string,
                     editing: Option<MoodEntry>, freshEntryId: string, now: Millis): seq<Journal> {
    match editing
    case Some(e) =>
      Lists.PatchFirst(js, JournalId, journalId,
        j => Store.WithEntryPatched(j, e.id, Store.MoodPatch(Some(mood), Some(NoteOf(moodNote))), now))
    case None =>
      Lists.PatchFirst(js, JournalId, journalId,
        j => Store.WithEntryAdded(j, MoodEntry(freshEntryId, mood, NoteOf(moodNote), now), now))
  }

  /** Today's journal, found or created, sits at the first index carrying
      today's date, which with distinct ids is also the first index carrying
      its id. */
  lemma TodayJournalIndex(js: seq<Journal>, today: Day, freshJournalId: string, now: Millis)
    requires JournalIdsUnique(js)
    requires forall i :: 0 <= i < |js| ==> js[i].id != freshJournalId
    ensures var (journal, js1) := Store.TodayJournal(js, today, freshJournalId, now);
      var k := Lists.IndexOfKey(js1, JournalDate, today);
      0 <= k && js1[k] == journal && Lists.IndexOfKey(js1, JournalId, journal.id) == k
  {
    var (journal, js1) := Store.TodayJournal(js, today, freshJournalId, now);
    var k := Lists.IndexOfKey(js1, JournalDate, today);
    assert 0 <= k && js1[k] == journal by {
      if Store.JournalOn(js, today).None? {
        assert js1[|js|] == journal;
      }
    }
    assert JournalIdsUnique(js1);
  }

  /** A new mood saved with distinct journal ids ends up as the last entry
      of today's journal. */
  lemma SavedMoodShowsToday(js: seq<Journal>, today: Day, freshJournalId: string, mood: Mood,
                            moodNote: string, freshEntryId: string, now: Millis)
    requires JournalIdsUnique(js)
    requires forall i :: 0 <= i < |js| ==> js[i].id != freshJournalId
    ensures var (journal, js1) := Store.TodayJournal(js, today, freshJournalId, now);
      var after := SavedMood(js1, journal.id, mood, moodNote, None, freshEntryId, now);
      Store.JournalOn(after, today).Some? &&
      Entries(Store.JournalOn(after, today).value) ==
        Entries(journal) + [MoodEntry(freshEntryId, mood, NoteOf(moodNote), now)]
  {
    var (journal, js1) := Store.TodayJournal(js, today, freshJournalId, now);
    TodayJournalIndex(js, today, freshJournalId, now);
    var k := Lists.IndexOfKey(js1, JournalDate, today);
    var entry := MoodEntry(freshEntryId, mood, NoteOf(moodNote), now);
    var after := SavedMood(js1, journal.id, mood, moodNote, None, freshEntryId, now);
    assert after[k] == Store.WithEntryAdded(journal, entry, now);
    assert forall p :: 0 <= p < k ==> after[p] == js1[p];
    assert Lists.IndexOfKey(after, JournalDate, today) == k;
  }

  /** `handleSaveQuestions`: today's journal, found or created, gets the
      answers map as its answer list. */
  method SaveQuestions(store: Store.UserStore, signedIn: bool, answers: AnswerMap, today: Day,
                       freshJournalId: string, now: Millis)
    requires forall i :: 0 <= i < |store.journals| ==> store.journals[i].id != freshJournalId
    modifies store`journals
    ensures !signedIn ==> store.journals == old(store.journals)
    ensures signedIn ==>
      var (journal, js) := Store.TodayJournal(old(store.journals), today, freshJournalId, now);
      var patch := Store.JournalPatch(None, None, None, Some(MapToAnswers(answers)), None);
      store.journals == Lists.PatchFirst(js, JournalId, journal.id, j => patch.Apply(j, now))
  {
    if !signedIn {
      return;
    }
    var journal := store.GetOrCreateTodayJournal(today, freshJournalId, now);
    var journalAnswers := MapToAnswers(answers);
    store.UpdateJournal(journal.id, Store.JournalPatch(None, None, None, Some(journalAnswers), None), now);
  }

  // ---------------------------------------------------------------------
  // History

  /** Newest `createdAt` first. */
  predicate NewestFirst(js: seq<Journal>) {
    forall i, k :: 0 <= i < k < |js| ==> js[i].createdAt >= js[k].createdAt
  }

  /** `x` placed before the first journal that is not newer than it. */
  function InsertByCreated(x: Journal, js: seq<Journal>): (r: seq<Journal>)
    ensures multiset(r) == multiset(js) + multiset{x}
  {
    if |js| == 0 || js[0].createdAt <= x.createdAt then [x] + js
    else
      assert js == [js[0]] + js[1..];
      [js[0]] + InsertByCreated(x, js[1..])
  }

  /** Inserting into a list that is newest first keeps it newest first. */
  lemma {:induction false} InsertKeepsOrder(x: Journal, js: seq<Journal>)
    requires NewestFirst(js)
    ensures NewestFirst(InsertByCreated(x, js))
  {
    if |js| > 0 && js[0].createdAt > x.createdAt {
      var rest := InsertByCreated(x, js[1..]);
      InsertKeepsOrder(x, js[1..]);
      // the head of `rest` is `x` or `js[1]`, neither newer than `js[0]`
      assert rest[0] == x || rest[0] == js[1];
      assert InsertByCreated(x, js) == [js[0]] + rest;
    }
  }

  /** `allJournals.sort((a, b) => b.createdAt - a.createdAt)`. */
  function SortNewestFirst(js: seq<Journal>): (r: seq<Journal>)
    ensures multiset(r) == multiset(js)
  {
    if |js| == 0 then []
    else
      assert js == [js[0]] + js[1..];
      InsertByCreated(js[0], SortNewestFirst(js[1..]))
  }

  /** The sorted list is newest first. */
  lemma {:induction false} SortedNewestFirst(js: seq<Journal>)
    ensures NewestFirst(SortNewestFirst(js))
  {
    if |js| > 0 {
      SortedNewestFirst(js[1..]);
      InsertKeepsOrder(js[0], SortNewestFirst(js[1..]));
    }
  }

  function NotOn(today: Day): Journal -> bool {
    (j: Journal) => j.date != today
  }

  /** The history list: every journal but today's, newest first. */
  function History(js: seq<Journal>, today: Day): seq<Journal> {
    Lists.Filter(SortNewestFirst(js), NotOn(today))
  }

  /** Filtering keeps a list newest first. */
  lemma {:induction false} FilterNewestFirst(js: seq<Journal>, p: Journal -> bool)
    requires NewestFirst(js)
    ensures NewestFirst(Lists.Filter(js, p))
  {
    if |js| > 0 {
      FilterNewestFirst(js[1..], p);
      var rest := Lists.Filter(js[1..], p);
      assert forall y :: y in rest ==> y.createdAt <= js[0].createdAt;
    }
  }

  /** The history holds exactly the journals of other days, newest first. */
  lemma HistoryIsPastNewestFirst(js: seq<Journal>, today: Day)
    ensures NewestFirst(History(js, today))
    ensures forall j :: j in History(js, today) <==> j in js && j.date != today
  {
    SortedNewestFirst(js);
    FilterNewestFirst(SortNewestFirst(js), NotOn(today));
    assert forall j :: j in SortNewestFirst(js) <==> j in js by {
      forall j ensures j in SortNewestFirst(js) <==> j in js {
        assert j in SortNewestFirst(js) <==> j in multiset(SortNewestFirst(js));
      }
    }
  }
}
