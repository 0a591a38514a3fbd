/** The records of lib/types.ts. Timestamps and due dates are epoch
    milliseconds; a journal's calendar date is an integer day number (days
    since 1970-01-01, UTC). */
module Types {
  import opened Basics

  type Millis = int
  type Day = int

  /** A signed-in user as the session holds it: no password field. */
  datatype User = User(id: string, username: string, email: string, createdAt: Millis)

  datatype Todo = Todo(
    id: string,
    title: string,
    isFocus: bool,
    completed: bool,
    milestoneId: Option<string>,
    dueDate: Millis,
    tags: seq<string>,
    createdAt: Millis)

  /** How a milestone measures progress. */
  datatype MilestoneType = SelfRating | Numeric | Count

  datatype ColorTheme = Mint | Peach | Dream | Sky

  /** `startValue` only matters for `Numeric`; `targetValue` is ignored by `SelfRating`. */
  datatype Milestone = Milestone(
    id: string,
    title: string,
    description: Option<string>,
    kind: MilestoneType,
    startValue: real,
    targetValue: real,
    currentValue: real,
    deadline: Millis,
    colorTheme: ColorTheme,
    createdAt: Millis)

  datatype Vision = Vision(
    id: string,
    title: string,
    description: Option<string>,
    imageUrl: Option<string>,
    category: string,
    createdAt: Millis)

  /** A mood level is one of 1, 2, 3, 4, 5. */
  type Mood = m: int | 1 <= m <= 5 witness 3

  datatype MoodEntry = MoodEntry(id: string, mood: Mood, note: Option<string>, timestamp: Millis)

  datatype Answer = Answer(questionId: string, content: string)

  /** One journal per day. Records written by older versions may lack the
      mood-entry list, hence the `Option`. */
  datatype Journal = Journal(
    id: string,
    date: Day,
    moodEntries: Option<seq<MoodEntry>>,
    answers: seq<Answer>,
    createdAt: Millis,
    updatedAt: Millis)

  datatype WeeklyEnergy = WeeklyEnergy(day: string, value: int)

  // Keys the store looks records up by.
  function TodoId(t: Todo): string { t.id }
  function MilestoneId(m: Milestone): string { m.id }
  function VisionId(v: Vision): string { v.id }
  function JournalId(j: Journal): string { j.id }
  function JournalDate(j: Journal): Day { j.date }
  function MoodEntryId(e: MoodEntry): string { e.id }

  /** The mood entries of a journal, an absent list read as empty. */
  function Entries(j: Journal): seq<MoodEntry> {
    j.moodEntries.GetOr([])
  }

  /** The string stored in a milestone's `type` field. */
  function KindTag(k: MilestoneType): string {
    match k
    case SelfRating => "self-rating"
    case Numeric => "numeric"
    case Count => "count"
  }

  /** Reading a stored `type` string: anything other than the two special
      kinds falls through to the numeric formula, as the progress switch does. */
  function ParseKind(s: string): (k: MilestoneType)
    ensures k == SelfRating <==> s == "self-rating"
    ensures k == Count <==> s == "count"
  {
    if s == "self-rating" then SelfRating
    else if s == "count" then Count
    else Numeric
  }

  /** Every milestone type survives being stored as its string. */
  lemma KindRoundTrip(k: MilestoneType)
    ensures ParseKind(KindTag(k)) == k
  {
  }

  /** The string stored in a milestone's `colorTheme` field. */
  function ThemeTag(c: ColorTheme): string {
    match c
    case Mint => "mint"
    case Peach => "peach"
    case Dream => "dream"
    case Sky => "sky"
  }

  /** The four theme strings are distinct. */
  lemma ThemeTagInjective(a: ColorTheme, b: ColorTheme)
    ensures ThemeTag(a) == ThemeTag(b) ==> a == b
  {
  }
}
