/** The deterministic half of the extraction node (src/life_os/agent/nodes/extractor.py, `run`):
    the presence filter, the merge into the stored entities, the missing-field labels and the
    clarification question. The language-model call is an input: the `ExtractedData` it returned. */
module Extractor {
  import opened Wrappers
  import Text
  import opened Tasks
  import opened Wellness
  import opened Entities
  import opened State

  /** `getattr(extracted, k)` for a schema field; None where the field is None. */
  function FieldOf(x: ExtractedData, k: Key): (r: Option<Value>)
    ensures r.Some? ==> Fits(k, r.value)
  {
    match k
    case SleepKey => if x.sleep.Some? then Some(SleepVal(x.sleep.value)) else None
    case ExerciseKey => Some(ExerciseVal(x.exercise))
    case WellnessKey => if x.wellness.Some? then Some(WellnessVal(x.wellness.value)) else None
    case TasksKey => Some(TaskVal(x.tasks))
    case ReadingLinksKey => Some(LinkVal(x.readingLinks))
    case ReminderTextKey => if x.reminderText.Some? then Some(TextVal(x.reminderText.value)) else None
    case ReminderDatetimeKey => if x.reminderDatetime.Some? then Some(StampVal(x.reminderDatetime.value)) else None
    case JournalNoteKey => if x.journalNote.Some? then Some(TextVal(x.journalNote.value)) else None
  }

  /** `val is not None and val != []` */
  predicate Present(o: Option<Value>) {
    o.Some? && !IsEmptyList(o.value)
  }

  /** The fields this turn's extraction actually filled. Only None and the empty list are
      dropped: an empty journal note still counts as present here. */
  function NewData(x: ExtractedData): (r: Entities)
    ensures WellShaped(r)
    ensures SleepKey in r <==> x.sleep.Some?
    ensures ExerciseKey in r <==> x.exercise != []
    ensures WellnessKey in r <==> x.wellness.Some?
    ensures TasksKey in r <==> x.tasks != []
    ensures ReadingLinksKey in r <==> x.readingLinks != []
    ensures ReminderTextKey in r <==> x.reminderText.Some?
    ensures ReminderDatetimeKey in r <==> x.reminderDatetime.Some?
    ensures JournalNoteKey in r <==> x.journalNote.Some?
    ensures x.sleep.Some? ==> r[SleepKey] == SleepVal(x.sleep.value)
    ensures x.exercise != [] ==> r[ExerciseKey] == ExerciseVal(x.exercise)
    ensures x.wellness.Some? ==> r[WellnessKey] == WellnessVal(x.wellness.value)
    ensures x.tasks != [] ==> r[TasksKey] == TaskVal(x.tasks)
    ensures x.readingLinks != [] ==> r[ReadingLinksKey] == LinkVal(x.readingLinks)
    ensures x.reminderText.Some? ==> r[ReminderTextKey] == TextVal(x.reminderText.value)
    ensures x.reminderDatetime.Some? ==> r[ReminderDatetimeKey] == StampVal(x.reminderDatetime.value)
    ensures x.journalNote.Some? ==> r[JournalNoteKey] == TextVal(x.journalNote.value)
  {
    map k: Key | Present(FieldOf(x, k)) :: FieldOf(x, k).value
  }

  /** Both sides hold a truthy value of the same kind: lists of one item each merge into one
      item, other lists concatenate, two model instances are overlaid field by field, and any
      other value is replaced by the new one. */
  function Combine(prior: Value, latest: Value): (r: Value)
    requires SameKind(prior, latest)
    ensures SameKind(r, prior)
  {
    match prior
    case ExerciseVal(xs) =>
      var ys := latest.exercises;
      if |xs| == 1 && |ys| == 1 then ExerciseVal([UnionExercise(xs[0], ys[0])]) else ExerciseVal(xs + ys)
    case TaskVal(xs) =>
      var ys := latest.tasks;
      if |xs| == 1 && |ys| == 1 then TaskVal([UnionTask(xs[0], ys[0])]) else TaskVal(xs + ys)
    case LinkVal(xs) =>
      var ys := latest.links;
      if |xs| == 1 && |ys| == 1 then LinkVal([UnionLink(xs[0], ys[0])]) else LinkVal(xs + ys)
    case SleepVal(s) => SleepVal(UnionSleep(s, latest.sleep))
    case WellnessVal(w) => WellnessVal(UnionWellness(w, latest.wellness))
    case TextVal(_) => latest
    case StampVal(_) => latest
  }

  /** The value kept under one key, from the stored value and the new one. */
  function MergeValue(prior: Option<Value>, latest: Option<Value>): (r: Option<Value>)
    requires prior.Some? && latest.Some? ==> SameKind(prior.value, latest.value)
    ensures r.Some? <==> (prior.Some? && Truthy(prior.value)) || (latest.Some? && Truthy(latest.value))
  {
    var priorSet := prior.Some? && Truthy(prior.value);
    var latestSet := latest.Some? && Truthy(latest.value);
    if priorSet && latestSet then Some(Combine(prior.value, latest.value))
    else if latestSet then latest
    else if priorSet then prior
    else None
  }

  /** Combining two truthy values never yields a falsy one. */
  lemma CombineTruthy(prior: Value, latest: Value)
    requires SameKind(prior, latest) && Truthy(prior) && Truthy(latest)
    ensures Truthy(Combine(prior, latest))
  {
  }

  /** The entities after this turn: every schema field, merged against the stored entities. */
  function Merge(existing: Entities, x: ExtractedData): (merged: Entities)
    requires WellShaped(existing)
    ensures Stored(merged)
    ensures forall k :: k in merged <==> Holds(existing, k) || Holds(NewData(x), k)
  {
    var latest := NewData(x);
    var merged := map k: Key | MergeValue(Get(existing, k), Get(latest, k)).Some? ::
      MergeValue(Get(existing, k), Get(latest, k)).value;
    assert forall k | k in merged :: Fits(k, merged[k]) && Truthy(merged[k]) by {
      forall k | k in merged ensures Fits(k, merged[k]) && Truthy(merged[k]) {
        var p, q := Get(existing, k), Get(latest, k);
        if p.Some? && Truthy(p.value) && q.Some? && Truthy(q.value) {
          CombineTruthy(p.value, q.value);
        }
      }
    }
    merged
  }

  /** A stored value the new extraction does not supply survives unchanged: the sleep of an
      earlier turn stays when this turn only mentions meditation. */
  lemma {:induction false} MergeKeepsStored(existing: Entities, x: ExtractedData, k: Key)
    requires WellShaped(existing)
    requires Holds(existing, k) && !Holds(NewData(x), k)
    ensures k in Merge(existing, x) && Merge(existing, x)[k] == existing[k]
  {
  }

  /** A field only the new extraction supplies is taken as extracted, and so is a new text or
      datetime value over a stored one. */
  lemma {:induction false} MergeTakesNew(existing: Entities, x: ExtractedData, k: Key)
    requires WellShaped(existing)
    requires Holds(NewData(x), k)
    requires !Holds(existing, k) || NewData(x)[k].TextVal? || NewData(x)[k].StampVal?
    ensures k in Merge(existing, x) && Merge(existing, x)[k] == NewData(x)[k]
  {
    if Holds(existing, k) {
      FitsSameKind(k, existing[k], NewData(x)[k]);
    }
  }

  /** Two sleep entries are overlaid: every clock field and the quality take the new value when
      it is set and keep the stored one otherwise, so no field goes from set to unset. */
  lemma MergeOverlaysSleep(existing: Entities, x: ExtractedData)
    requires WellShaped(existing)
    requires SleepKey in existing && x.sleep.Some?
    ensures var prior := existing[SleepKey].sleep;
      var latest := x.sleep.value;
      var merged := Merge(existing, x)[SleepKey].sleep;
      && Merge(existing, x)[SleepKey] == SleepVal(UnionSleep(prior, latest))
      && (prior.bedtimeHour.Some? || latest.bedtimeHour.Some? ==> merged.bedtimeHour.Some?)
      && (prior.wakeHour.Some? || latest.wakeHour.Some? ==> merged.wakeHour.Some?)
      && (prior.quality.Some? || latest.quality.Some? ==> merged.quality.Some?)
      && (prior.durationMinutes.Some? || latest.durationMinutes.Some? ==> merged.durationMinutes.Some?)
      && (latest.bedtimeHour.Some? ==> merged.bedtimeHour == latest.bedtimeHour)
      && (latest.bedtimeHour.None? ==> merged.bedtimeHour == prior.bedtimeHour)
  {
    assert Fits(SleepKey, existing[SleepKey]);
  }

  /** Two exercise lists of one session each merge into one session, the fields overlaid;
      any other pair of non-empty lists is concatenated, old sessions first. */
  lemma MergeExerciseLists(existing: Entities, x: ExtractedData)
    requires WellShaped(existing)
    requires Holds(existing, ExerciseKey) && x.exercise != []
    ensures var xs := existing[ExerciseKey].exercises;
      var merged := Merge(existing, x)[ExerciseKey].exercises;
      && (|xs| == 1 && |x.exercise| == 1 ==> merged == [UnionExercise(xs[0], x.exercise[0])])
      && (|xs| != 1 || |x.exercise| != 1 ==> merged == xs + x.exercise && |merged| == |xs| + |x.exercise|)
  {
    assert Fits(ExerciseKey, existing[ExerciseKey]);
  }

  /** Two wellness entries are overlaid: every field takes the new value when it is set and
      keeps the stored one otherwise, and the date is the new one. */
  lemma MergeOverlaysWellness(existing: Entities, x: ExtractedData)
    requires WellShaped(existing)
    requires WellnessKey in existing && x.wellness.Some?
    ensures var prior := existing[WellnessKey].wellness;
      var latest := x.wellness.value;
      var merged := Merge(existing, x)[WellnessKey].wellness;
      && Merge(existing, x)[WellnessKey] == WellnessVal(UnionWellness(prior, latest))
      && merged.date == latest.date
      && (prior.meditationMinutes.Some? || latest.meditationMinutes.Some? ==> merged.meditationMinutes.Some?)
      && (prior.moodScore.Some? || latest.moodScore.Some? ==> merged.moodScore.Some?)
      && (prior.energyLevel.Some? || latest.energyLevel.Some? ==> merged.energyLevel.Some?)
      && (latest.moodScore.Some? ==> merged.moodScore == latest.moodScore)
      && (latest.moodScore.None? ==> merged.moodScore == prior.moodScore)
  {
    assert Fits(WellnessKey, existing[WellnessKey]);
  }

  /** Two task lists of one task each merge into one task: the new text, the priority
      overlaid; any other pair of non-empty lists is concatenated, old tasks first. */
  lemma MergeTaskLists(existing: Entities, x: ExtractedData)
    requires WellShaped(existing)
    requires Holds(existing, TasksKey) && x.tasks != []
    ensures var ts := existing[TasksKey].tasks;
      var merged := Merge(existing, x)[TasksKey].tasks;
      && (|ts| == 1 && |x.tasks| == 1 ==>
            merged == [UnionTask(ts[0], x.tasks[0])] && merged[0].task == x.tasks[0].task
            && (x.tasks[0].priority.None? ==> merged[0].priority == ts[0].priority))
      && (|ts| != 1 || |x.tasks| != 1 ==> merged == ts + x.tasks)
  {
    assert Fits(TasksKey, existing[TasksKey]);
  }

  /** Two link lists of one link each merge into one link: the new URL, the context overlaid;
      any other pair of non-empty lists is concatenated, old links first. */
  lemma MergeLinkLists(existing: Entities, x: ExtractedData)
    requires WellShaped(existing)
    requires Holds(existing, ReadingLinksKey) && x.readingLinks != []
    ensures var ls := existing[ReadingLinksKey].links;
      var merged := Merge(existing, x)[ReadingLinksKey].links;
      && (|ls| == 1 && |x.readingLinks| == 1 ==>
            merged == [UnionLink(ls[0], x.readingLinks[0])] && merged[0].url == x.readingLinks[0].url
            && (x.readingLinks[0].context.None? ==> merged[0].context == ls[0].context))
      && (|ls| != 1 || |x.readingLinks| != 1 ==> merged == ls + x.readingLinks)
  {
    assert Fits(ReadingLinksKey, existing[ReadingLinksKey]);
  }

  /** Combining two accepted values gives an accepted value. */
  lemma CombineValid(prior: Value, latest: Value)
    requires SameKind(prior, latest) && ValidValue(prior) && ValidValue(latest)
    ensures ValidValue(Combine(prior, latest))
  {
    match prior
    case SleepVal(s) => UnionSleepRevalidates(s, latest.sleep);
    case ExerciseVal(xs) =>
      var ys := latest.exercises;
      if |xs| == 1 && |ys| == 1 {
        assert ValidExercise(UnionExercise(xs[0], ys[0]));
      } else {
        assert forall i | 0 <= i < |xs + ys| :: (xs + ys)[i] == if i < |xs| then xs[i] else ys[i - |xs|];
      }
    case TaskVal(ts) =>
      var us := latest.tasks;
      if |ts| == 1 && |us| == 1 {
        assert ValidTask(UnionTask(ts[0], us[0]));
      } else {
        assert forall i | 0 <= i < |ts + us| :: (ts + us)[i] == if i < |ts| then ts[i] else us[i - |ts|];
      }
    case _ =>
  }

  /** Merging accepted values gives accepted values. */
  lemma MergeValid(existing: Entities, x: ExtractedData)
    requires WellShaped(existing) && ValidEntities(existing) && ValidExtraction(x)
    ensures ValidEntities(Merge(existing, x))
  {
    var latest := NewData(x);
    var merged := Merge(existing, x);
    forall k | k in merged ensures ValidValue(merged[k]) {
      if Holds(existing, k) && Holds(latest, k) {
        assert ValidValue(latest[k]);
        FitsSameKind(k, existing[k], latest[k]);
        CombineValid(existing[k], latest[k]);
      }
    }
  }

  // ---------------------------------------------------------------- missing fields

  /** A missing-field label; `Text` is the phrase that goes into `missing_fields` and the question. */
  datatype Label = ExerciseTypeLabel | ExerciseDurationLabel | BedtimeLabel | WakeLabel | QualityLabel {
    function Text(): string {
      match this
      case ExerciseTypeLabel => "exercise type"
      case ExerciseDurationLabel => "exercise duration"
      case BedtimeLabel => "bedtime"
      case WakeLabel => "wake up time"
      case QualityLabel => "sleep quality"
    }
  }

  /** Distinct labels have distinct phrases, so duplicate-free labels give duplicate-free phrases. */
  lemma LabelTextInjective(a: Label, b: Label)
    ensures a.Text() == b.Text() ==> a == b
  {
    if a != b {
      assert |a.Text()| != |b.Text()| || a.Text()[0] != b.Text()[0];
    }
  }

  function Texts(labels: seq<Label>): (r: seq<string>)
    ensures |r| == |labels|
    ensures forall i | 0 <= i < |labels| :: r[i] == labels[i].Text()
  {
    seq(|labels|, i requires 0 <= i < |labels| => labels[i].Text())
  }

  /** `if absent and label not in missing: missing.append(label)` */
  function AddLabel(missing: seq<Label>, name: Label, absent: bool): seq<Label> {
    if absent && name !in missing then missing + [name] else missing
  }

  /** The loop over the stored exercise sessions, in order. */
  function ExerciseLabels(xs: seq<ExerciseEntry>, missing: seq<Label>): seq<Label>
    decreases |xs|
  {
    if xs == [] then missing
    else
      var withType := AddLabel(missing, ExerciseTypeLabel, xs[0].exerciseType.None?);
      ExerciseLabels(xs[1..], AddLabel(withType, ExerciseDurationLabel, xs[0].durationMinutes.None?))
  }

  function SleepLabels(s: SleepEntry, missing: seq<Label>): seq<Label> {
    var withBed := AddLabel(missing, BedtimeLabel, s.bedtimeHour.None?);
    var withWake := AddLabel(withBed, WakeLabel, s.wakeHour.None?);
    AddLabel(withWake, QualityLabel, s.quality.None?)
  }

  /** The sessions the label loop visits: the stored list when it is present and non-empty. */
  function ExercisesOf(merged: Entities): seq<ExerciseEntry>
    requires WellShaped(merged)
  {
    if Holds(merged, ExerciseKey) then merged[ExerciseKey].exercises else []
  }

  function SleepOf(merged: Entities): Option<SleepEntry>
    requires WellShaped(merged)
  {
    if Holds(merged, SleepKey) then Some(merged[SleepKey].sleep) else None
  }

  /** The labels of the fields still missing after the merge, exercise first, then sleep. */
  function MissingLabels(merged: Entities): seq<Label>
    requires WellShaped(merged)
  {
    var afterExercise := ExerciseLabels(ExercisesOf(merged), []);
    if SleepOf(merged).Some? then SleepLabels(SleepOf(merged).value, afterExercise) else afterExercise
  }

  /** Index of the first session without a type, or |xs| when every session has one. */
  function TypeGap(xs: seq<ExerciseEntry>): (i: nat)
    ensures i <= |xs|
    ensures forall j | 0 <= j < i :: xs[j].exerciseType.Some?
    ensures i < |xs| ==> xs[i].exerciseType.None?
  {
    if xs == [] then 0 else if xs[0].exerciseType.None? then 0 else 1 + TypeGap(xs[1..])
  }

  /** Index of the first session without a duration, or |xs|. */
  function DurationGap(xs: seq<ExerciseEntry>): (i: nat)
    ensures i <= |xs|
    ensures forall j | 0 <= j < i :: xs[j].durationMinutes.Some?
    ensures i < |xs| ==> xs[i].durationMinutes.None?
  {
    if xs == [] then 0 else if xs[0].durationMinutes.None? then 0 else 1 + DurationGap(xs[1..])
  }

  /** The exercise labels in the order the sessions reveal them: the label whose first gap comes
      earlier goes first, and on the same session the type goes before the duration. */
  function ExerciseGapLabels(xs: seq<ExerciseEntry>): seq<Label> {
    var t, d := TypeGap(xs), DurationGap(xs);
    (if t < |xs| && t <= d then [ExerciseTypeLabel] else [])
    + (if d < |xs| then [ExerciseDurationLabel] else [])
    + (if t < |xs| && d < t then [ExerciseTypeLabel] else [])
  }

  /** The sleep labels in their fixed order. */
  function SleepGapLabels(s: Option<SleepEntry>): seq<Label> {
    if s.None? then []
    else
      (if s.value.bedtimeHour.None? then [BedtimeLabel] else [])
      + (if s.value.wakeHour.None? then [WakeLabel] else [])
      + (if s.value.quality.None? then [QualityLabel] else [])
  }

  lemma {:induction false} ExerciseLabelsSaturated(xs: seq<ExerciseEntry>, missing: seq<Label>)
    requires ExerciseTypeLabel in missing && ExerciseDurationLabel in missing
    ensures ExerciseLabels(xs, missing) == missing
    decreases |xs|
  {
    if xs != [] {
      ExerciseLabelsSaturated(xs[1..], missing);
    }
  }

  lemma {:induction false} ExerciseLabelsAfterType(xs: seq<ExerciseEntry>, missing: seq<Label>)
    requires ExerciseTypeLabel in missing && ExerciseDurationLabel !in missing
    ensures ExerciseLabels(xs, missing) == missing + (if DurationGap(xs) < |xs| then [ExerciseDurationLabel] else [])
    decreases |xs|
  {
    if xs != [] {
      if xs[0].durationMinutes.None? {
        ExerciseLabelsSaturated(xs[1..], missing + [ExerciseDurationLabel]);
      } else {
        ExerciseLabelsAfterType(xs[1..], missing);
      }
    }
  }

  lemma {:induction false} ExerciseLabelsAfterDuration(xs: seq<ExerciseEntry>, missing: seq<Label>)
    requires ExerciseDurationLabel in missing && ExerciseTypeLabel !in missing
    ensures ExerciseLabels(xs, missing) == missing + (if TypeGap(xs) < |xs| then [ExerciseTypeLabel] else [])
    decreases |xs|
  {
    if xs != [] {
      if xs[0].exerciseType.None? {
        ExerciseLabelsSaturated(xs[1..], missing + [ExerciseTypeLabel]);
      } else {
        ExerciseLabelsAfterDuration(xs[1..], missing);
      }
    }
  }

  /** The label loop over the sessions yields exactly the labels in order of first discovery. */
  lemma {:induction false} ExerciseLabelsInDiscoveryOrder(xs: seq<ExerciseEntry>)
    ensures ExerciseLabels(xs, []) == ExerciseGapLabels(xs)
    decreases |xs|
  {
    if xs != [] {
      var x := xs[0];
      var afterFirst := AddLabel(AddLabel([], ExerciseTypeLabel, x.exerciseType.None?),
                                 ExerciseDurationLabel, x.durationMinutes.None?);
      assert ExerciseLabels(xs, []) == ExerciseLabels(xs[1..], afterFirst);
      if x.exerciseType.None? && x.durationMinutes.None? {
        assert afterFirst == [ExerciseTypeLabel, ExerciseDurationLabel];
        ExerciseLabelsSaturated(xs[1..], afterFirst);
      } else if x.exerciseType.None? {
        assert afterFirst == [ExerciseTypeLabel];
        ExerciseLabelsAfterType(xs[1..], afterFirst);
      } else if x.durationMinutes.None? {
        assert afterFirst == [ExerciseDurationLabel];
        ExerciseLabelsAfterDuration(xs[1..], afterFirst);
      } else {
        assert afterFirst == [];
        ExerciseLabelsInDiscoveryOrder(xs[1..]);
      }
    }
  }

  lemma SleepLabelsAppend(s: SleepEntry, missing: seq<Label>)
    requires BedtimeLabel !in missing && WakeLabel !in missing && QualityLabel !in missing
    ensures SleepLabels(s, missing) == missing + SleepGapLabels(Some(s))
  {
    var b := if s.bedtimeHour.None? then [BedtimeLabel] else [];
    var w := if s.wakeHour.None? then [WakeLabel] else [];
    var q := if s.quality.None? then [QualityLabel] else [];
    assert AddLabel(missing, BedtimeLabel, s.bedtimeHour.None?) == missing + b;
    assert AddLabel(missing + b, WakeLabel, s.wakeHour.None?) == missing + b + w;
    assert AddLabel(missing + b + w, QualityLabel, s.quality.None?) == missing + b + w + q;
  }

  /** The missing labels are the exercise labels in discovery order followed by the sleep labels
      in the fixed order bedtime, wake up time, sleep quality. */
  lemma MissingLabelsOrder(merged: Entities)
    requires WellShaped(merged)
    ensures MissingLabels(merged) == ExerciseGapLabels(ExercisesOf(merged)) + SleepGapLabels(SleepOf(merged))
  {
    var xs := ExercisesOf(merged);
    ExerciseLabelsInDiscoveryOrder(xs);
    var e := ExerciseGapLabels(xs);
    assert BedtimeLabel !in e && WakeLabel !in e && QualityLabel !in e;
    if SleepOf(merged).Some? {
      SleepLabelsAppend(SleepOf(merged).value, e);
    }
  }

  ghost predicate NoDuplicates<T>(s: seq<T>) {
    forall i, j | 0 <= i < j < |s| :: s[i] != s[j]
  }

  lemma ExerciseGapLabelsFacts(xs: seq<ExerciseEntry>)
    ensures var e := ExerciseGapLabels(xs);
      && NoDuplicates(e)
      && (forall n | n in e :: n == ExerciseTypeLabel || n == ExerciseDurationLabel)
      && (ExerciseTypeLabel in e <==> exists i | 0 <= i < |xs| :: xs[i].exerciseType.None?)
      && (ExerciseDurationLabel in e <==> exists i | 0 <= i < |xs| :: xs[i].durationMinutes.None?)
  {
    var t, d := TypeGap(xs), DurationGap(xs);
    assert (exists i | 0 <= i < |xs| :: xs[i].exerciseType.None?) <==> t < |xs|;
    assert (exists i | 0 <= i < |xs| :: xs[i].durationMinutes.None?) <==> d < |xs|;
  }

  lemma SleepGapLabelsFacts(s: Option<SleepEntry>)
    ensures var g := SleepGapLabels(s);
      && NoDuplicates(g)
      && (forall n | n in g :: n == BedtimeLabel || n == WakeLabel || n == QualityLabel)
      && (BedtimeLabel in g <==> s.Some? && s.value.bedtimeHour.None?)
      && (WakeLabel in g <==> s.Some? && s.value.wakeHour.None?)
      && (QualityLabel in g <==> s.Some? && s.value.quality.None?)
  {
  }

  /** No label is asked for twice. */
  lemma MissingLabelsDistinct(merged: Entities)
    requires WellShaped(merged)
    ensures NoDuplicates(MissingLabels(merged))
  {
    var e := ExerciseGapLabels(ExercisesOf(merged));
    var g := SleepGapLabels(SleepOf(merged));
    MissingLabelsOrder(merged);
    ExerciseGapLabelsFacts(ExercisesOf(merged));
    SleepGapLabelsFacts(SleepOf(merged));
    NoDuplicatesConcat(e, g);
  }

  /** An exercise label is asked for exactly when some stored session lacks that field. */
  lemma MissingExerciseLabelsExact(merged: Entities)
    requires WellShaped(merged)
    ensures var missing := MissingLabels(merged);
      var xs := ExercisesOf(merged);
      && (ExerciseTypeLabel in missing <==> exists i | 0 <= i < |xs| :: xs[i].exerciseType.None?)
      && (ExerciseDurationLabel in missing <==> exists i | 0 <= i < |xs| :: xs[i].durationMinutes.None?)
  {
    var e := ExerciseGapLabels(ExercisesOf(merged));
    var g := SleepGapLabels(SleepOf(merged));
    MissingLabelsOrder(merged);
    ExerciseGapLabelsFacts(ExercisesOf(merged));
    SleepGapLabelsFacts(SleepOf(merged));
    LabelsOfConcat(e, g);
  }

  /** A sleep label is asked for exactly when the stored sleep lacks that field. */
  lemma MissingSleepLabelsExact(merged: Entities)
    requires WellShaped(merged)
    ensures var missing := MissingLabels(merged);
      var s := SleepOf(merged);
      && (BedtimeLabel in missing <==> s.Some? && s.value.bedtimeHour.None?)
      && (WakeLabel in missing <==> s.Some? && s.value.wakeHour.None?)
      && (QualityLabel in missing <==> s.Some? && s.value.quality.None?)
  {
    var e := ExerciseGapLabels(ExercisesOf(merged));
    var g := SleepGapLabels(SleepOf(merged));
    MissingLabelsOrder(merged);
    ExerciseGapLabelsFacts(ExercisesOf(merged));
    SleepGapLabelsFacts(SleepOf(merged));
    LabelsOfConcat(e, g);
  }

  lemma LabelsOfConcat(e: seq<Label>, g: seq<Label>)
    ensures forall n :: n in e + g <==> n in e || n in g
  {
  }

  lemma NoDuplicatesConcat<T>(a: seq<T>, b: seq<T>)
    requires NoDuplicates(a) && NoDuplicates(b)
    requires forall x | x in a :: x !in b
    ensures NoDuplicates(a + b)
  {
    var c := a + b;
    forall i, j | 0 <= i < j < |c| ensures c[i] != c[j] {
      if j < |a| {
        assert c[i] == a[i] && c[j] == a[j];
      } else if i >= |a| {
        assert c[i] == b[i - |a|] && c[j] == b[j - |a|];
      } else {
        assert c[i] in a && c[j] in b;
      }
    }
  }

  /** Phrases in `missing_fields` are never repeated. */
  lemma MissingPhrasesDistinct(labels: seq<Label>)
    requires NoDuplicates(labels)
    ensures NoDuplicates(Texts(labels))
  {
    forall i, j | 0 <= i < j < |labels| ensures Texts(labels)[i] != Texts(labels)[j] {
      LabelTextInjective(labels[i], labels[j]);
    }
  }

  // ---------------------------------------------------------------- the node

  const ClarifyPrefix: string := "Got it! Could you also specify the "

  /** The question asked when fields are missing; none when nothing is missing. */
  function ClarifyMessage(missing: seq<string>): (r: Option<string>)
    ensures r.Some? <==> missing != []
    ensures r.Some? ==> ClarifyPrefix <= r.value && r.value[|r.value| - 1] == '?'
    ensures r.Some? ==> r.value[|ClarifyPrefix|..|r.value| - 1] == Text.Join(missing, ", ")
    ensures r.Some? ==> Text.PartsAt(r.value, |ClarifyPrefix|, missing, ", ")
  {
    if missing == [] then None
    else
      var q := ClarifyPrefix + Text.Join(missing, ", ") + "?";
      Text.JoinInside(ClarifyPrefix, missing, ", ", "?");
      Some(q)
  }

  /** The state update of `extractor.run`, given what the model extracted. The count of
      clarifications and the earlier missing fields are neither read nor changed. */
  function ExtractNode(s: AgentState, x: ExtractedData): (r: AgentState)
    requires WellShaped(s.entities)
    ensures Stored(r.entities)
    ensures r.entities == Merge(s.entities, x)
    ensures r.missingFields == Texts(MissingLabels(r.entities))
    ensures r.chatHistory == s.chatHistory + [Message("user", s.rawInput)]
    ensures r.response == (if r.missingFields == [] then s.response else ClarifyMessage(r.missingFields))
    ensures r.clarificationCount == s.clarificationCount && r.abort == s.abort && r.intent == s.intent
    ensures r.rawInput == s.rawInput && r.userId == s.userId && r.structuredRecords == s.structuredRecords
  {
    var merged := Merge(s.entities, x);
    var missing := Texts(MissingLabels(merged));
    s.(entities := merged,
       chatHistory := s.chatHistory + [Message("user", s.rawInput)],
       missingFields := missing,
       response := if missing == [] then s.response else ClarifyMessage(missing))
  }

  /** The node asks a follow-up question exactly when the merged entities lack a label. */
  lemma AsksIffMissing(s: AgentState, x: ExtractedData)
    requires WellShaped(s.entities)
    ensures ExtractNode(s, x).missingFields != [] <==> MissingLabels(Merge(s.entities, x)) != []
  {
  }

  /** The sleep-only extraction of "slept for 5 hours". */
  function SleptFiveHours(d: Date): ExtractedData {
    ExtractedData(Some(SleepEntry(d, None, None, None, None, Some(300), None, None)), [], None, [], [], None, None, None)
  }

  /** "slept for 5 hours" on a fresh topic misses the bedtime, the wake-up time and the quality,
      in that order. */
  lemma SleepOnlyMissesTimesAndQuality(d: Date)
    ensures MissingLabels(Merge(map[], SleptFiveHours(d))) == [BedtimeLabel, WakeLabel, QualityLabel]
  {
    var x := SleptFiveHours(d);
    var merged := Merge(map[], x);
    MergeTakesNew(map[], x, SleepKey);
    assert SleepOf(merged) == x.sleep;
    assert ExercisesOf(merged) == [];
    MissingLabelsOrder(merged);
    assert MissingLabels(merged) == [] + ([BedtimeLabel] + [WakeLabel] + [QualityLabel]);
  }

  /** The question for the three sleep labels lists their phrases in order. */
  lemma SleepQuestion()
    ensures ClarifyMessage(Texts([BedtimeLabel, WakeLabel, QualityLabel]))
      == Some(ClarifyPrefix + ("bedtime" + ", " + ("wake up time" + ", " + "sleep quality")) + "?")
  {
    assert Texts([BedtimeLabel, WakeLabel, QualityLabel]) == ["bedtime", "wake up time", "sleep quality"];
    assert Text.Join(["sleep quality"], ", ") == "sleep quality";
    assert Text.Join(["wake up time", "sleep quality"], ", ") == "wake up time" + ", " + "sleep quality";
  }

  /** "slept for 5 hours" on a fresh topic: all three sleep labels are asked for, in order. */
  lemma SleepOnlyAsksForTimesAndQuality(d: Date)
    ensures var merged := Merge(map[], SleptFiveHours(d));
      && MissingLabels(merged) == [BedtimeLabel, WakeLabel, QualityLabel]
      && ClarifyMessage(Texts(MissingLabels(merged)))
         == Some(ClarifyPrefix + ("bedtime" + ", " + ("wake up time" + ", " + "sleep quality")) + "?")
  {
    SleepOnlyMissesTimesAndQuality(d);
    SleepQuestion();
  }

  /** A stored one-item task list and a new one-item task list collapse into one task carrying
      the new text: the stored task is no longer among the entities. */
  lemma SingleTaskReplacedByNewTask(d: Date)
    ensures var existing := map[TasksKey := TaskVal([TaskItem("buy milk", None)])];
      var x := ExtractedData(None, [], None, [TaskItem("call mom", Some(1))], [], None, None, None);
      Merge(existing, x)[TasksKey] == TaskVal([TaskItem("call mom", Some(1))])
  {
  }
}
