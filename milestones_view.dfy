/** The pure logic of components/milestones.tsx: the progress percentage of
    a milestone, the trend series shown beside it, and the per-type
    normalisation applied when a milestone is added. Values are exact reals. */
module MilestonesView {
  import opened Basics
  import opened Types
  import opened Numbers
  import Text
  import Store
  import Metrics

  // ---------------------------------------------------------------------
  // Progress

  /** The progress of a milestone of kind `kind` that starts at `start`,
      aims at `target` and stands at `current`, as a whole percentage. */
  function Progress(kind: MilestoneType, start: real, target: real, current: real): (r: int)
    ensures 0 <= r <= 100
  {
    match kind
    case SelfRating => Percent(Round(current))
    case Count =>
      if target <= 0.0 then 0 else Percent(Round(current / target * 100.0))
    case Numeric =>
      var range := target - start;
      if range == 0.0 then (if current >= target then 100 else 0)
      else Percent(Round((current - start) / range * 100.0))
  }

  /** The fields `calculateProgress` reads from a stored milestone, each of
      which an older record may lack. */
  datatype StoredProgress = StoredProgress(
    kind: Option<string>, startValue: Option<real>, targetValue: Option<real>, currentValue: Option<real>)

  /** `calculateProgress`: missing values default to start 0, target 100,
      current 0; a missing or empty type means numeric, and so does any type
      string the switch does not know. */
  function CalculateProgress(m: StoredProgress): (r: int)
    ensures 0 <= r <= 100
  {
    var kind := ParseKind(m.kind.GetOr(""));
    Progress(kind, m.startValue.GetOr(0.0), m.targetValue.GetOr(100.0), m.currentValue.GetOr(0.0))
  }

  /** The stored form of a milestone: every field present. */
  function Stored(m: Milestone): StoredProgress {
    StoredProgress(Some(KindTag(m.kind)), Some(m.startValue), Some(m.targetValue), Some(m.currentValue))
  }

  /** The progress of a complete milestone record. */
  function ProgressOf(m: Milestone): (r: int)
    ensures r == CalculateProgress(Stored(m))
    ensures 0 <= r <= 100
  {
    KindRoundTrip(m.kind);
    Progress(m.kind, m.startValue, m.targetValue, m.currentValue)
  }

  /** A record without values is read as starting at 0, aiming at 100 and standing at 0. */
  lemma MissingValuesDefault(kind: Option<string>)
    ensures CalculateProgress(StoredProgress(kind, None, None, None))
         == CalculateProgress(StoredProgress(kind, Some(0.0), Some(100.0), Some(0.0)))
    ensures CalculateProgress(StoredProgress(kind, None, None, None)) == 0
  {
    RoundInt(0);
  }

  /** A missing, empty or unknown type string is computed by the numeric formula. */
  lemma UnknownKindIsNumeric(kind: Option<string>, start: Option<real>, target: Option<real>, current: Option<real>)
    requires kind.GetOr("") != "self-rating" && kind.GetOr("") != "count"
    ensures CalculateProgress(StoredProgress(kind, start, target, current))
         == CalculateProgress(StoredProgress(Some("numeric"), start, target, current))
  {
  }

  /** Self-rating: the current value is the percentage, rounded and clamped;
      the start and target values play no part. */
  lemma SelfRatingIsCurrent(start1: real, target1: real, start2: real, target2: real, current: int)
    ensures Progress(SelfRating, start1, target1, current as real)
         == Progress(SelfRating, start2, target2, current as real)
    ensures 0 <= current <= 100 ==> Progress(SelfRating, start1, target1, current as real) == current
    ensures current < 0 ==> Progress(SelfRating, start1, target1, current as real) == 0
    ensures 100 < current ==> Progress(SelfRating, start1, target1, current as real) == 100
  {
    RoundInt(current);
  }

  /** Count: no progress without a positive target; the start value plays no part. */
  lemma CountIgnoresStart(start1: real, start2: real, target: real, current: real)
    ensures Progress(Count, start1, target, current) == Progress(Count, start2, target, current)
    ensures target <= 0.0 ==> Progress(Count, start1, target, current) == 0
  {
  }

  /** Count: reaching the target is 100%, any count at or beyond it too. */
  lemma CountAtTarget(target: real, current: real)
    requires 0.0 < target <= current
    ensures Progress(Count, 0.0, target, current) == 100
  {
    RatioBetween(current, target, 1.0, current / target);
    RoundMonotone(100.0, current / target * 100.0);
    RoundInt(100);
  }

  /** Numeric with an empty range: all or nothing. */
  lemma NumericEmptyRange(value: real, current: real)
    ensures Progress(Numeric, value, value, current) == (if current >= value then 100 else 0)
  {
  }

  /** Numeric with a non-empty range: 0% at the start value and 100% at the
      target, whether the range goes up or down. */
  lemma NumericEndpoints(start: real, target: real)
    requires start != target
    ensures Progress(Numeric, start, target, start) == 0
    ensures Progress(Numeric, start, target, target) == 100
  {
    RoundInt(0);
    assert (target - start) / (target - start) == 1.0;
    RoundInt(100);
  }

  /** On a rising range, more current value never means less progress. */
  lemma NumericRisingMonotone(start: real, target: real, c1: real, c2: real)
    requires start < target && c1 <= c2
    ensures Progress(Numeric, start, target, c1) <= Progress(Numeric, start, target, c2)
  {
    QuotientMonotone(c1 - start, c2 - start, target - start);
    RoundMonotone((c1 - start) / (target - start) * 100.0, (c2 - start) / (target - start) * 100.0);
    PercentMonotone(Round((c1 - start) / (target - start) * 100.0), Round((c2 - start) / (target - start) * 100.0));
  }

  /** On a falling range (losing weight from 80 to 70, say), a lower
      current value is more progress. */
  lemma NumericFallingAntitone(start: real, target: real, c1: real, c2: real)
    requires target < start && c1 <= c2
    ensures Progress(Numeric, start, target, c2) <= Progress(Numeric, start, target, c1)
  {
    QuotientAntitone(c1 - start, c2 - start, target - start);
    RoundMonotone((c2 - start) / (target - start) * 100.0, (c1 - start) / (target - start) * 100.0);
    PercentMonotone(Round((c2 - start) / (target - start) * 100.0), Round((c1 - start) / (target - start) * 100.0));
  }

  /** Worked values: 3 of 10 counted is 30%; 85 on the way from 80 to 90 is
      50%; 75 on the way down from 80 to 70 is 50%; an empty range at 50 is
      100% at 60 and 0% at 40. */
  lemma ProgressExamples()
    ensures Progress(Count, 0.0, 10.0, 3.0) == 30
    ensures Progress(Numeric, 80.0, 90.0, 85.0) == 50
    ensures Progress(Numeric, 80.0, 70.0, 75.0) == 50
    ensures Progress(Numeric, 50.0, 50.0, 60.0) == 100
    ensures Progress(Numeric, 50.0, 50.0, 40.0) == 0
  {
    RoundInt(30);
    RoundInt(50);
  }

  // ---------------------------------------------------------------------
  // Trend

  datatype TrendPoint = TrendPoint(week: string, value: int)

  /** `generateTrendData`: four weekly points at 20%, 40%, 60% and 80% of the
      progress, rounded, then the progress itself. */
  function GenerateTrendData(m: StoredProgress): (r: seq<TrendPoint>)
    ensures |r| == 5
    ensures r[4].value == CalculateProgress(m)
  {
    var p := CalculateProgress(m) as real;
    [TrendPoint("1周", Round(p * 0.2)), TrendPoint("2周", Round(p * 0.4)),
     TrendPoint("3周", Round(p * 0.6)), TrendPoint("4周", Round(p * 0.8)),
     TrendPoint("现在", CalculateProgress(m))]
  }

  /** The trend never falls and stays between 0 and the progress. */
  lemma TrendRises(m: StoredProgress)
    ensures forall i, j :: 0 <= i <= j < 5 ==> GenerateTrendData(m)[i].value <= GenerateTrendData(m)[j].value
    ensures forall i :: 0 <= i < 5 ==> 0 <= GenerateTrendData(m)[i].value <= CalculateProgress(m)
  {
    var p := CalculateProgress(m);
    var x := p as real;
    RoundInt(0);
    RoundInt(p);
    RoundMonotone(0.0, x * 0.2);
    RoundMonotone(x * 0.2, x * 0.4);
    RoundMonotone(x * 0.4, x * 0.6);
    RoundMonotone(x * 0.6, x * 0.8);
    RoundMonotone(x * 0.8, x);
  }

  // ---------------------------------------------------------------------
  // Colour themes

  /** `getColorInfo`: an unknown theme string falls back to the first theme, mint. */
  function ParseTheme(s: string): (c: ColorTheme)
    ensures s != "peach" && s != "dream" && s != "sky" ==> c == Mint
  {
    if s == "peach" then Peach
    else if s == "dream" then Dream
    else if s == "sky" then Sky
    else Mint
  }

  /** Every theme is found again from its stored string. */
  lemma ThemeRoundTrip(c: ColorTheme)
    ensures ParseTheme(ThemeTag(c)) == c
  {
  }

  // ---------------------------------------------------------------------
  // Adding a milestone

  /** The add dialog's fields; `deadline` is the picked calendar day, if any. */
  datatype MilestoneForm = MilestoneForm(
    title: string, description: string, kind: MilestoneType,
    startValue: real, targetValue: real, currentValue: real,
    deadline: Option<Day>, colorTheme: ColorTheme)

  /** `handleAddMilestone`: nothing without a signed-in user, a title that
      is not blank, and a deadline; self-rating forces the range 0..100,
      count forces the start to 0, numeric keeps what was entered. The title
      is stored as typed, and the deadline is midnight UTC of the picked day. */
  function PrepareNewMilestone(signedIn: bool, form: MilestoneForm): (r: Option<Store.NewMilestone>)
    ensures r.None? <==> !signedIn || Text.Trim(form.title) == "" || form.deadline.None?
    ensures r.Some? ==>
      r.value.title == form.title && r.value.kind == form.kind &&
      r.value.currentValue == form.currentValue &&
      r.value.colorTheme == form.colorTheme &&
      r.value.description == Some(form.description) &&
      Metrics.DayOf(r.value.deadline) == form.deadline.value
    ensures r.Some? && form.kind == SelfRating ==> r.value.startValue == 0.0 && r.value.targetValue == 100.0
    ensures r.Some? && form.kind == Count ==> r.value.startValue == 0.0 && r.value.targetValue == form.targetValue
    ensures r.Some? && form.kind == Numeric ==> r.value.startValue == form.startValue && r.value.targetValue == form.targetValue
  {
    if !signedIn || Text.Trim(form.title) == "" || form.deadline.None? then None
    else
      var start := if form.kind == SelfRating || form.kind == Count then 0.0 else form.startValue;
      var target := if form.kind == SelfRating then 100.0 else form.targetValue;
      Metrics.DayOfMidnight(form.deadline.value);
      Some(Store.NewMilestone(form.title, Some(form.description), form.kind, start, target,
        form.currentValue, form.deadline.value * Metrics.MsPerDay, form.colorTheme))
  }

  /** The normalisation only rewrites values the milestone's formula
      ignores: the added milestone shows the progress the form describes. */
  lemma NormalisationKeepsProgress(form: MilestoneForm, id: string, now: Millis)
    requires PrepareNewMilestone(true, form).Some?
    ensures ProgressOf(PrepareNewMilestone(true, form).value.Complete(id, now))
         == Progress(form.kind, form.startValue, form.targetValue, form.currentValue)
  {
  }
}
