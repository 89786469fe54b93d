/** Wellness entries and the extraction schema (src/life_os/models/wellness.py).

    Every optional pydantic field is an `Option`. Field bounds are not types: an entry is
    built unvalidated and `NewSleep`, `NewExercise` and `NewWellness` play the pydantic
    constructor, which either rejects the entry (naming the offending fields) or accepts it.
    `duration_hours` is kept as whole minutes (`durationMinutes`). */
module Wellness {
  import opened Wrappers
  import opened Tasks

  /** An ISO-8601 calendar date, as `str(date)` renders it. */
  type Date = string

  datatype SleepQuality = Poor | Fair | Good | Excellent {
    function Value(): string {
      match this
      case Poor => "poor"
      case Fair => "fair"
      case Good => "good"
      case Excellent => "excellent"
    }
  }

  datatype ExerciseType = Run | Walk | Gym | Weights | Yoga | Swim | Cycle | OtherExercise {
    function Value(): string {
      match this
      case Run => "run"
      case Walk => "walk"
      case Gym => "gym"
      case Weights => "weights"
      case Yoga => "yoga"
      case Swim => "swim"
      case Cycle => "cycle"
      case OtherExercise => "other"
    }
  }

  datatype MuscleGroup = FullBody | Chest | Biceps | Triceps | Shoulders | Back | Abs | LowerBody | OtherMuscle {
    function Value(): string {
      match this
      case FullBody => "full_body"
      case Chest => "chest"
      case Biceps => "biceps"
      case Triceps => "triceps"
      case Shoulders => "shoulders"
      case Back => "back"
      case Abs => "abs"
      case LowerBody => "lower_body"
      case OtherMuscle => "other"
    }
  }

  datatype MeditationType = Meditation | Cleaning | Sitting | GroupMeditation | OtherPractice {
    function Value(): string {
      match this
      case Meditation => "meditation"
      case Cleaning => "cleaning"
      case Sitting => "sitting"
      case GroupMeditation => "group_meditation"
      case OtherPractice => "other"
    }
  }

  /** Optional integer field bound `ge=lo, le=hi`: None is always accepted. */
  predicate Within(o: Option<int>, lo: int, hi: int) {
    o.None? || lo <= o.value <= hi
  }

  /** Optional text field bound `max_length=n`, counted in code points. */
  predicate ShortEnough(o: Option<string>, n: nat) {
    o.None? || |o.value| <= n
  }

  // ---------------------------------------------------------------- sleep

  datatype SleepEntry = SleepEntry(
    date: Date,
    bedtimeHour: Option<int>,
    bedtimeMinute: Option<int>,
    wakeHour: Option<int>,
    wakeMinute: Option<int>,
    durationMinutes: Option<int>,
    quality: Option<SleepQuality>,
    notes: Option<string>)

  const MinutesPerDay: int := 24 * 60

  /** `validate_bedtime_is_evening` rejects these hours as daytime. */
  predicate IsDaytime(hour: int) {
    9 <= hour <= 17
  }

  predicate BedtimeAccepted(h: Option<int>) {
    Within(h, 0, 23) && !(h.Some? && IsDaytime(h.value))
  }

  /** The field names pydantic reports for a sleep entry, in declaration order. */
  function SleepErrors(s: SleepEntry): seq<string> {
    (if BedtimeAccepted(s.bedtimeHour) then [] else ["bedtime_hour"])
    + (if Within(s.bedtimeMinute, 0, 59) then [] else ["bedtime_minute"])
    + (if Within(s.wakeHour, 0, 23) then [] else ["wake_hour"])
    + (if Within(s.wakeMinute, 0, 59) then [] else ["wake_minute"])
  }

  predicate ValidSleep(s: SleepEntry) {
    && BedtimeAccepted(s.bedtimeHour)
    && Within(s.bedtimeMinute, 0, 59)
    && Within(s.wakeHour, 0, 23)
    && Within(s.wakeMinute, 0, 59)
  }

  /** Once both clock hours are known the duration is known: what `compute_duration` guarantees. */
  predicate Derived(s: SleepEntry) {
    s.bedtimeHour.Some? && s.wakeHour.Some? ==> s.durationMinutes.Some?
  }

  /** Minutes past midnight; a missing minute counts as 0 (`self.bedtime_minute or 0`). */
  function ClockMinutes(hour: int, minute: Option<int>): int {
    hour * 60 + minute.GetOr(0)
  }

  /** Minutes from bedtime to wake time, adding a day when waking is not after going to bed. */
  function SleepSpan(bed: int, wake: int): (m: int)
    ensures 0 <= bed < MinutesPerDay && 0 <= wake < MinutesPerDay ==>
      && 0 < m <= MinutesPerDay
      && (bed + m) % MinutesPerDay == wake
      && (m == MinutesPerDay <==> bed == wake)
  {
    if wake <= bed then wake + MinutesPerDay - bed else wake - bed
  }

  /** `SleepEntry.compute_duration`: fills a missing duration from the two clock times and
      leaves everything else, including an explicit duration, alone. */
  function ComputeDuration(s: SleepEntry): (r: SleepEntry)
    ensures r == s.(durationMinutes := r.durationMinutes)
    ensures s.durationMinutes.Some? ==> r == s
    ensures s.bedtimeHour.None? || s.wakeHour.None? ==> r == s
    ensures r.durationMinutes.Some? <==> s.durationMinutes.Some? || (s.bedtimeHour.Some? && s.wakeHour.Some?)
    ensures Derived(r)
  {
    if s.bedtimeHour.Some? && s.wakeHour.Some? && s.durationMinutes.None? then
      var bed := ClockMinutes(s.bedtimeHour.value, s.bedtimeMinute);
      var wake := ClockMinutes(s.wakeHour.value, s.wakeMinute);
      s.(durationMinutes := Some(SleepSpan(bed, wake)))
    else
      s
  }

  /** `SleepEntry(**fields)`: field checks first, then the duration is derived. */
  function NewSleep(raw: SleepEntry): (r: Result<SleepEntry, seq<string>>)
    ensures r.Success? <==> ValidSleep(raw)
    ensures r.Failure? ==> r.error == SleepErrors(raw) && r.error != []
    ensures r.Success? ==> ValidSleep(r.value) && Derived(r.value)
    ensures r.Success? ==> r.value.(durationMinutes := raw.durationMinutes) == raw
  {
    if ValidSleep(raw) then Success(ComputeDuration(raw)) else Failure(SleepErrors(raw))
  }

  /** A derived duration of a valid entry lies in (0, 24h] and carries bedtime onto wake time. */
  lemma DerivedDurationInDay(raw: SleepEntry)
    requires ValidSleep(raw) && raw.durationMinutes.None?
    requires raw.bedtimeHour.Some? && raw.wakeHour.Some?
    ensures var s := ComputeDuration(raw);
      var bed := ClockMinutes(raw.bedtimeHour.value, raw.bedtimeMinute);
      var wake := ClockMinutes(raw.wakeHour.value, raw.wakeMinute);
      && s.durationMinutes.Some?
      && 0 < s.durationMinutes.value <= MinutesPerDay
      && (bed + s.durationMinutes.value) % MinutesPerDay == wake
      && (s.durationMinutes.value == MinutesPerDay <==> bed == wake)
  {
  }

  /** Going to bed at 23:00 and waking at 06:30 is 7.5 hours; the same clock time twice is a full day. */
  lemma DurationExamples()
    ensures NewSleep(SleepEntry("2024-01-01", Some(23), Some(0), Some(6), Some(30), None, None, None))
      == Success(SleepEntry("2024-01-01", Some(23), Some(0), Some(6), Some(30), Some(450), None, None))
    ensures NewSleep(SleepEntry("2024-01-01", Some(23), None, Some(6), Some(30), None, None, None)).value.durationMinutes
      == Some(450)
    ensures NewSleep(SleepEntry("2024-01-01", Some(22), None, Some(22), None, None, None, None)).value.durationMinutes
      == Some(MinutesPerDay)
    ensures NewSleep(SleepEntry("2024-01-01", Some(22), None, Some(7), None, Some(300), None, None)).value.durationMinutes
      == Some(300)
    ensures NewSleep(SleepEntry("2024-01-01", Some(12), None, None, None, None, None, None)).error == ["bedtime_hour"]
  {
    var noon := SleepEntry("2024-01-01", Some(12), None, None, None, None, None, None);
    assert !BedtimeAccepted(noon.bedtimeHour);
    assert SleepErrors(noon) == ["bedtime_hour"] + [] + [] + [];
    assert NewSleep(noon) == Failure(SleepErrors(noon));
  }

  /** Overlaying two sleep entries field by field and rebuilding the entry, as the extractor does
      when a clarification adds to the stored sleep. The rebuilt entry re-derives a duration only
      when neither side had one. */
  function UnionSleep(prior: SleepEntry, latest: SleepEntry): (r: SleepEntry)
    ensures r.date == latest.date
    ensures r.bedtimeHour == Overlay(prior.bedtimeHour, latest.bedtimeHour)
    ensures r.bedtimeMinute == Overlay(prior.bedtimeMinute, latest.bedtimeMinute)
    ensures r.wakeHour == Overlay(prior.wakeHour, latest.wakeHour)
    ensures r.wakeMinute == Overlay(prior.wakeMinute, latest.wakeMinute)
    ensures r.quality == Overlay(prior.quality, latest.quality)
    ensures r.notes == Overlay(prior.notes, latest.notes)
    ensures Overlay(prior.durationMinutes, latest.durationMinutes).Some? ==>
      r.durationMinutes == Overlay(prior.durationMinutes, latest.durationMinutes)
    ensures Derived(r)
  {
    ComputeDuration(SleepEntry(
      latest.date,
      Overlay(prior.bedtimeHour, latest.bedtimeHour),
      Overlay(prior.bedtimeMinute, latest.bedtimeMinute),
      Overlay(prior.wakeHour, latest.wakeHour),
      Overlay(prior.wakeMinute, latest.wakeMinute),
      Overlay(prior.durationMinutes, latest.durationMinutes),
      Overlay(prior.quality, latest.quality),
      Overlay(prior.notes, latest.notes)))
  }

  /** Rebuilding a union of two accepted entries never fails validation, and gives the union. */
  lemma UnionSleepRevalidates(prior: SleepEntry, latest: SleepEntry)
    requires ValidSleep(prior) && ValidSleep(latest)
    ensures ValidSleep(UnionSleep(prior, latest))
    ensures var raw := UnionSleep(prior, latest).(durationMinutes := Overlay(prior.durationMinutes, latest.durationMinutes));
      NewSleep(raw) == Success(UnionSleep(prior, latest))
  {
  }

  /** The rebuilt entry keeps a duration computed on an earlier turn even when the clarification
      changes a clock time: stored 22:00 to 07:00 (9 h), then "woke at 6" still says 9 h. */
  lemma UnionKeepsEarlierDuration()
    ensures var prior := NewSleep(SleepEntry("2024-01-01", Some(22), Some(0), Some(7), Some(0), None, None, None)).value;
      var latest := SleepEntry("2024-01-01", None, None, Some(6), None, None, None, None);
      && prior.durationMinutes == Some(540)
      && UnionSleep(prior, latest).wakeHour == Some(6)
      && UnionSleep(prior, latest).durationMinutes == Some(540)
  {
  }

  // ---------------------------------------------------------------- exercise

  datatype ExerciseEntry = ExerciseEntry(
    date: Date,
    exerciseType: Option<ExerciseType>,
    bodyParts: Option<seq<MuscleGroup>>,
    durationMinutes: Option<int>,
    distanceKm: Option<real>,
    intensity: Option<int>,
    notes: Option<string>)

  predicate ValidExercise(e: ExerciseEntry) {
    && Within(e.durationMinutes, 1, 600)
    && (e.distanceKm.None? || e.distanceKm.value >= 0.0)
    && Within(e.intensity, 1, 10)
    && ShortEnough(e.notes, 500)
  }

  function ExerciseErrors(e: ExerciseEntry): seq<string> {
    (if Within(e.durationMinutes, 1, 600) then [] else ["duration_minutes"])
    + (if e.distanceKm.None? || e.distanceKm.value >= 0.0 then [] else ["distance_km"])
    + (if Within(e.intensity, 1, 10) then [] else ["intensity"])
    + (if ShortEnough(e.notes, 500) then [] else ["notes"])
  }

  /** `ExerciseEntry(**fields)` */
  function NewExercise(raw: ExerciseEntry): (r: Result<ExerciseEntry, seq<string>>)
    ensures r.Success? <==> ValidExercise(raw)
    ensures r.Success? ==> r.value == raw
    ensures r.Failure? ==> r.error == ExerciseErrors(raw) && r.error != []
  {
    if ValidExercise(raw) then Success(raw) else Failure(ExerciseErrors(raw))
  }

  function UnionExercise(prior: ExerciseEntry, latest: ExerciseEntry): (r: ExerciseEntry)
    ensures r.date == latest.date
    ensures r.exerciseType == Overlay(prior.exerciseType, latest.exerciseType)
    ensures r.bodyParts == Overlay(prior.bodyParts, latest.bodyParts)
    ensures r.durationMinutes == Overlay(prior.durationMinutes, latest.durationMinutes)
    ensures r.distanceKm == Overlay(prior.distanceKm, latest.distanceKm)
    ensures r.intensity == Overlay(prior.intensity, latest.intensity)
    ensures r.notes == Overlay(prior.notes, latest.notes)
    ensures ValidExercise(prior) && ValidExercise(latest) ==> ValidExercise(r)
  {
    ExerciseEntry(
      latest.date,
      Overlay(prior.exerciseType, latest.exerciseType),
      Overlay(prior.bodyParts, latest.bodyParts),
      Overlay(prior.durationMinutes, latest.durationMinutes),
      Overlay(prior.distanceKm, latest.distanceKm),
      Overlay(prior.intensity, latest.intensity),
      Overlay(prior.notes, latest.notes))
  }

  // ---------------------------------------------------------------- wellness

  datatype WellnessEntry = WellnessEntry(
    date: Date,
    timeOfDay: Option<string>,
    meditationMinutes: Option<int>,
    meditationType: Option<MeditationType>,
    moodScore: Option<int>,
    energyLevel: Option<int>,
    notes: Option<string>)

  predicate ValidWellness(w: WellnessEntry) {
    && (w.meditationMinutes.None? || w.meditationMinutes.value >= 0)
    && Within(w.moodScore, 1, 10)
    && Within(w.energyLevel, 1, 10)
    && ShortEnough(w.notes, 1000)
  }

  function WellnessErrors(w: WellnessEntry): seq<string> {
    (if w.meditationMinutes.None? || w.meditationMinutes.value >= 0 then [] else ["meditation_minutes"])
    + (if Within(w.moodScore, 1, 10) then [] else ["mood_score"])
    + (if Within(w.energyLevel, 1, 10) then [] else ["energy_level"])
    + (if ShortEnough(w.notes, 1000) then [] else ["notes"])
  }

  /** `WellnessEntry(**fields)` */
  function NewWellness(raw: WellnessEntry): (r: Result<WellnessEntry, seq<string>>)
    ensures r.Success? <==> ValidWellness(raw)
    ensures r.Success? ==> r.value == raw
    ensures r.Failure? ==> r.error == WellnessErrors(raw) && r.error != []
  {
    if ValidWellness(raw) then Success(raw) else Failure(WellnessErrors(raw))
  }

  function UnionWellness(prior: WellnessEntry, latest: WellnessEntry): (r: WellnessEntry)
    ensures r.date == latest.date
    ensures r.timeOfDay == Overlay(prior.timeOfDay, latest.timeOfDay)
    ensures r.meditationMinutes == Overlay(prior.meditationMinutes, latest.meditationMinutes)
    ensures r.meditationType == Overlay(prior.meditationType, latest.meditationType)
    ensures r.moodScore == Overlay(prior.moodScore, latest.moodScore)
    ensures r.energyLevel == Overlay(prior.energyLevel, latest.energyLevel)
    ensures r.notes == Overlay(prior.notes, latest.notes)
    ensures ValidWellness(prior) && ValidWellness(latest) ==> ValidWellness(r)
  {
    WellnessEntry(
      latest.date,
      Overlay(prior.timeOfDay, latest.timeOfDay),
      Overlay(prior.meditationMinutes, latest.meditationMinutes),
      Overlay(prior.meditationType, latest.meditationType),
      Overlay(prior.moodScore, latest.moodScore),
      Overlay(prior.energyLevel, latest.energyLevel),
      Overlay(prior.notes, latest.notes))
  }

  // ---------------------------------------------------------------- one message

  /** Everything one message may contain. List fields default to the empty list, the rest to None. */
  datatype ExtractedData = ExtractedData(
    sleep: Option<SleepEntry>,
    exercise: seq<ExerciseEntry>,
    wellness: Option<WellnessEntry>,
    tasks: seq<TaskItem>,
    readingLinks: seq<ReadingLink>,
    reminderText: Option<string>,
    reminderDatetime: Option<string>,
    journalNote: Option<string>)

  /** What pydantic guarantees of an extraction it accepted. */
  predicate ValidExtraction(x: ExtractedData) {
    && (x.sleep.Some? ==> ValidSleep(x.sleep.value) && Derived(x.sleep.value))
    && (forall i | 0 <= i < |x.exercise| :: ValidExercise(x.exercise[i]))
    && (x.wellness.Some? ==> ValidWellness(x.wellness.value))
    && (forall i | 0 <= i < |x.tasks| :: ValidTask(x.tasks[i]))
  }
}
