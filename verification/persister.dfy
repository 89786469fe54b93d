/** The persistence node (src/life_os/agent/nodes/persister.py, `run`): it flattens the held
    entities into records, writes the summary reply, hands the Notion-bound values to the sync
    call, saves the records and clears the entities. The Notion sync and the database save are
    calls the model does not run: the sync's list of failed targets is an input, and the
    outcome records whether and with what each call was made. `show` stands for Python's `str`
    on a field value. */
module Persister {
  import opened Wrappers
  import opened Text
  import opened Tasks
  import opened Wellness
  import opened Entities
  import opened State

  // ---------------------------------------------------------------- model_dump(exclude_none=True)

  /** One model field with its value, None when unset. */
  datatype Slot = Slot(name: string, value: Option<Scalar>)

  function Names(slots: seq<Slot>): (r: seq<string>)
    ensures |r| == |slots| && forall i | 0 <= i < |slots| :: r[i] == slots[i].name
  {
    seq(|slots|, i requires 0 <= i < |slots| => slots[i].name)
  }

  function Values(slots: seq<Slot>): (r: seq<Option<Scalar>>)
    ensures |r| == |slots| && forall i | 0 <= i < |slots| :: r[i] == slots[i].value
  {
    seq(|slots|, i requires 0 <= i < |slots| => slots[i].value)
  }

  /** `exclude_none`: the slots that hold a value, in declaration order. */
  function Present(slots: seq<Slot>): (r: seq<Field>)
    ensures |r| <= |slots|
  {
    if slots == [] then []
    else (if slots[0].value.Some? then [Field(slots[0].name, slots[0].value.value)] else []) + Present(slots[1..])
  }

  /** A slot with a value dumps as the field of that name and value. */
  predicate Dumps(slot: Slot, f: Field) {
    slot == Slot(f.name, Some(f.value))
  }

  /** The dump holds exactly the fields of the slots that have a value. */
  lemma {:induction false} PresentKeepsValued(slots: seq<Slot>)
    ensures forall f :: f in Present(slots) <==> exists i | 0 <= i < |slots| :: Dumps(slots[i], f)
  {
    if slots != [] {
      PresentKeepsValued(slots[1..]);
      forall f ensures f in Present(slots) <==> exists i | 0 <= i < |slots| :: Dumps(slots[i], f) {
        if exists i | 0 <= i < |slots| :: Dumps(slots[i], f) {
          var i :| 0 <= i < |slots| && Dumps(slots[i], f);
          if i > 0 {
            assert Dumps(slots[1..][i - 1], f);
          }
        }
        if f in Present(slots[1..]) {
          var j :| 0 <= j < |slots| - 1 && Dumps(slots[1..][j], f);
          assert Dumps(slots[j + 1], f);
        }
      }
    }
  }

  /** The dump keeps the slots' order: dumping two runs of slots is dumping each in turn. */
  lemma {:induction false} PresentKeepsOrder(a: seq<Slot>, b: seq<Slot>)
    ensures Present(a + b) == Present(a) + Present(b)
  {
    if a == [] {
      assert a + b == b;
    } else {
      var head := if a[0].value.Some? then [Field(a[0].name, a[0].value.value)] else [];
      assert (a + b)[0] == a[0];
      assert (a + b)[1..] == a[1..] + b;
      assert Present(a + b) == head + Present(a[1..] + b);
      PresentKeepsOrder(a[1..], b);
      assert Present(a) == head + Present(a[1..]);
    }
  }

  /** Every dumped field is named after one of the slots. */
  lemma {:induction false} PresentNames(slots: seq<Slot>, f: Field)
    requires f in Present(slots)
    ensures f.name in Names(slots)
  {
    if slots[0].value.Some? && f == Field(slots[0].name, slots[0].value.value) {
      assert Names(slots)[0] == f.name;
    } else {
      assert f in Present(slots[1..]);
      PresentNames(slots[1..], f);
      var j :| 0 <= j < |slots| - 1 && Names(slots[1..])[j] == f.name;
      assert Names(slots)[j + 1] == f.name;
    }
  }

  function IntOf(o: Option<int>): Option<Scalar> {
    if o.Some? then Some(IntS(o.value)) else None
  }

  function TextOf(o: Option<string>): Option<Scalar> {
    if o.Some? then Some(TextS(o.value)) else None
  }

  const SleepNames: seq<string> :=
    ["bedtime_hour", "bedtime_minute", "wake_hour", "wake_minute", "duration_hours", "quality", "notes"]

  /** The fields of `SleepEntry` after `date`. */
  function SleepSlots(s: SleepEntry): (r: seq<Slot>)
    ensures Names(r) == SleepNames
  {
    [Slot("bedtime_hour", IntOf(s.bedtimeHour)),
     Slot("bedtime_minute", IntOf(s.bedtimeMinute)),
     Slot("wake_hour", IntOf(s.wakeHour)),
     Slot("wake_minute", IntOf(s.wakeMinute)),
     Slot("duration_hours", if s.durationMinutes.Some? then Some(MinutesS(s.durationMinutes.value)) else None),
     Slot("quality", if s.quality.Some? then Some(QualityS(s.quality.value)) else None),
     Slot("notes", TextOf(s.notes))]
  }

  const ExerciseNames: seq<string> :=
    ["exercise_type", "body_parts", "duration_minutes", "distance_km", "intensity", "notes"]

  function ExerciseSlots(e: ExerciseEntry): (r: seq<Slot>)
    ensures Names(r) == ExerciseNames
  {
    [Slot("exercise_type", if e.exerciseType.Some? then Some(ExerciseTypeS(e.exerciseType.value)) else None),
     Slot("body_parts", if e.bodyParts.Some? then Some(MusclesS(e.bodyParts.value)) else None),
     Slot("duration_minutes", IntOf(e.durationMinutes)),
     Slot("distance_km", if e.distanceKm.Some? then Some(RealS(e.distanceKm.value)) else None),
     Slot("intensity", IntOf(e.intensity)),
     Slot("notes", TextOf(e.notes))]
  }

  const WellnessNames: seq<string> :=
    ["time_of_day", "meditation_minutes", "meditation_type", "mood_score", "energy_level", "notes"]

  function WellnessSlots(w: WellnessEntry): (r: seq<Slot>)
    ensures Names(r) == WellnessNames
  {
    [Slot("time_of_day", TextOf(w.timeOfDay)),
     Slot("meditation_minutes", IntOf(w.meditationMinutes)),
     Slot("meditation_type", if w.meditationType.Some? then Some(PracticeS(w.meditationType.value)) else None),
     Slot("mood_score", IntOf(w.moodScore)),
     Slot("energy_level", IntOf(w.energyLevel)),
     Slot("notes", TextOf(w.notes))]
  }

  /** `model_dump(exclude_none=True)`; `date` is required and always first. */
  function DumpSleep(s: SleepEntry): seq<Field> {
    [Field("date", DateS(s.date))] + Present(SleepSlots(s))
  }

  function DumpExercise(e: ExerciseEntry): seq<Field> {
    [Field("date", DateS(e.date))] + Present(ExerciseSlots(e))
  }

  function DumpWellness(w: WellnessEntry): seq<Field> {
    [Field("date", DateS(w.date))] + Present(WellnessSlots(w))
  }

  // ---------------------------------------------------------------- reading a dump back

  /** Takes the next field when it has the expected name; the dump keeps declaration order, so
      a field that is not next was None. */
  function Take(fields: seq<Field>, name: string): (r: (Option<Scalar>, seq<Field>))
    ensures r.0.None? ==> r.1 == fields
    ensures r.0.Some? ==> fields != [] && fields[0] == Field(name, r.0.value) && r.1 == fields[1..]
  {
    if fields != [] && fields[0].name == name then (Some(fields[0].value), fields[1..]) else (None, fields)
  }

  /** Reads the named fields in order, each one or none, and returns what is left. */
  function Read(names: seq<string>, fields: seq<Field>): (r: (seq<Option<Scalar>>, seq<Field>))
    ensures |r.0| == |names|
  {
    if names == [] then ([], fields)
    else
      var (v, more) := Take(fields, names[0]);
      var (vs, rest) := Read(names[1..], more);
      ([v] + vs, rest)
  }

  ghost predicate Distinct(names: seq<string>) {
    forall i, j | 0 <= i < j < |names| :: names[i] != names[j]
  }

  /** What the tail of a slot list inherits from the whole: distinct names, a foreign tail, and
      a first remaining field that is not named after the head slot. */
  lemma SuffixFacts(slots: seq<Slot>, tail: seq<Field>)
    requires slots != []
    requires Distinct(Names(slots))
    requires tail != [] ==> tail[0].name !in Names(slots)
    ensures Distinct(Names(slots[1..]))
    ensures tail != [] ==> tail[0].name !in Names(slots[1..])
    ensures var p := Present(slots[1..]) + tail; p != [] ==> p[0].name != slots[0].name
  {
    var names := Names(slots);
    var rest := slots[1..];
    forall i, j | 0 <= i < j < |rest| ensures Names(rest)[i] != Names(rest)[j] {
      assert names[i + 1] != names[j + 1];
    }
    assert forall j | 0 <= j < |rest| :: Names(rest)[j] == names[j + 1];
    var p := Present(rest) + tail;
    if p != [] {
      if Present(rest) != [] {
        assert p[0] in Present(rest);
        PresentNames(rest, p[0]);
        var j :| 0 <= j < |rest| && Names(rest)[j] == p[0].name;
        assert names[j + 1] == p[0].name;
      } else {
        assert p[0] == tail[0];
      }
    }
  }

  lemma TakeFirst(f: Field, p: seq<Field>)
    ensures Take([f] + p, f.name) == (Some(f.value), p)
  {
    assert ([f] + p)[0] == f;
    assert ([f] + p)[1..] == p;
  }

  lemma TakeOther(p: seq<Field>, name: string)
    requires p != [] ==> p[0].name != name
    ensures Take(p, name) == (None, p)
  {
  }

  lemma PresentHead(slots: seq<Slot>, tail: seq<Field>)
    requires slots != [] && slots[0].value.Some?
    ensures Present(slots) + tail == [Field(slots[0].name, slots[0].value.value)] + (Present(slots[1..]) + tail)
  {
    var f := Field(slots[0].name, slots[0].value.value);
    assert Present(slots) == [f] + Present(slots[1..]);
  }

  lemma AbsentHead(slots: seq<Slot>, tail: seq<Field>)
    requires slots != [] && slots[0].value.None?
    ensures Present(slots) + tail == Present(slots[1..]) + tail
  {
    assert Present(slots) == Present(slots[1..]);
  }

  /** The head slot is read off first: its value when present, nothing otherwise. */
  lemma TakeHead(slots: seq<Slot>, tail: seq<Field>)
    requires slots != []
    requires var p := Present(slots[1..]) + tail; p != [] ==> p[0].name != slots[0].name
    ensures Take(Present(slots) + tail, slots[0].name) == (slots[0].value, Present(slots[1..]) + tail)
  {
    var p := Present(slots[1..]) + tail;
    if slots[0].value.Some? {
      PresentHead(slots, tail);
      TakeFirst(Field(slots[0].name, slots[0].value.value), p);
    } else {
      AbsentHead(slots, tail);
      TakeOther(p, slots[0].name);
    }
  }

  /** Reading the present slots back by name recovers every slot's value, provided the names are
      distinct and whatever follows does not start with one of them. */
  lemma {:induction false} ReadPresent(slots: seq<Slot>, tail: seq<Field>)
    requires Distinct(Names(slots))
    requires tail != [] ==> tail[0].name !in Names(slots)
    ensures Read(Names(slots), Present(slots) + tail) == (Values(slots), tail)
  {
    if slots == [] {
      assert Names(slots) == [] && Values(slots) == [];
      assert Present(slots) + tail == tail;
    } else {
      var rest := slots[1..];
      SuffixFacts(slots, tail);
      ReadPresent(rest, tail);
      TakeHead(slots, tail);
      assert Names(rest) == Names(slots)[1..];
      assert Values(slots) == [slots[0].value] + Values(rest);
    }
  }

  function AsInt(v: Option<Scalar>): Option<int> {
    if v.Some? && v.value.IntS? then Some(v.value.i) else None
  }

  function AsText(v: Option<Scalar>): Option<string> {
    if v.Some? && v.value.TextS? then Some(v.value.s) else None
  }

  function LoadSleep(fields: seq<Field>): Option<SleepEntry> {
    if fields == [] || fields[0].name != "date" || !fields[0].value.DateS? then None
    else
      var (v, rest) := Read(SleepNames, fields[1..]);
      if rest != [] then None
      else Some(SleepEntry(
        fields[0].value.d, AsInt(v[0]), AsInt(v[1]), AsInt(v[2]), AsInt(v[3]),
        if v[4].Some? && v[4].value.MinutesS? then Some(v[4].value.minutes) else None,
        if v[5].Some? && v[5].value.QualityS? then Some(v[5].value.quality) else None,
        AsText(v[6])))
  }

  function LoadExercise(fields: seq<Field>): Option<ExerciseEntry> {
    if fields == [] || fields[0].name != "date" || !fields[0].value.DateS? then None
    else
      var (v, rest) := Read(ExerciseNames, fields[1..]);
      if rest != [] then None
      else Some(ExerciseEntry(
        fields[0].value.d,
        if v[0].Some? && v[0].value.ExerciseTypeS? then Some(v[0].value.exerciseType) else None,
        if v[1].Some? && v[1].value.MusclesS? then Some(v[1].value.muscles) else None,
        AsInt(v[2]),
        if v[3].Some? && v[3].value.RealS? then Some(v[3].value.r) else None,
        AsInt(v[4]), AsText(v[5])))
  }

  function LoadWellness(fields: seq<Field>): Option<WellnessEntry> {
    if fields == [] || fields[0].name != "date" || !fields[0].value.DateS? then None
    else
      var (v, rest) := Read(WellnessNames, fields[1..]);
      if rest != [] then None
      else Some(WellnessEntry(
        fields[0].value.d, AsText(v[0]), AsInt(v[1]),
        if v[2].Some? && v[2].value.PracticeS? then Some(v[2].value.practice) else None,
        AsInt(v[3]), AsInt(v[4]), AsText(v[5])))
  }

  lemma SleepNamesDistinct()
    ensures Distinct(SleepNames)
  {
  }

  lemma ExerciseNamesDistinct()
    ensures Distinct(ExerciseNames)
  {
  }

  lemma WellnessNamesDistinct()
    ensures Distinct(WellnessNames)
  {
  }

  /** A stored sleep record loses nothing: every field that was not None is in it. */
  lemma SleepDumpRoundTrip(s: SleepEntry)
    ensures LoadSleep(DumpSleep(s)) == Some(s)
  {
    var slots := SleepSlots(s);
    SleepNamesDistinct();
    ReadPresent(slots, []);
    assert DumpSleep(s)[1..] == Present(slots) + [];
    var v := Values(slots);
    assert v[0] == IntOf(s.bedtimeHour) && v[1] == IntOf(s.bedtimeMinute);
    assert v[2] == IntOf(s.wakeHour) && v[3] == IntOf(s.wakeMinute);
  }

  lemma ExerciseDumpRoundTrip(e: ExerciseEntry)
    ensures LoadExercise(DumpExercise(e)) == Some(e)
  {
    var slots := ExerciseSlots(e);
    ExerciseNamesDistinct();
    ReadPresent(slots, []);
    assert DumpExercise(e)[1..] == Present(slots) + [];
  }

  lemma WellnessDumpRoundTrip(w: WellnessEntry)
    ensures LoadWellness(DumpWellness(w)) == Some(w)
  {
    var slots := WellnessSlots(w);
    WellnessNamesDistinct();
    ReadPresent(slots, []);
    assert DumpWellness(w)[1..] == Present(slots) + [];
  }

  // ---------------------------------------------------------------- records

  /** Tasks and reading links go to Notion only, never into records. */
  predicate NotionOnly(k: Key) {
    k == TasksKey || k == ReadingLinksKey
  }

  /** The records for one held value: one per list item, one for a model, and `{"value": v}`
      for a plain value; each tagged with the entity key. */
  function RecordsFor(k: Key, v: Value): (r: seq<FlatRecord>)
    requires Fits(k, v) && !NotionOnly(k)
    ensures forall i | 0 <= i < |r| :: r[i].kind == k.Name()
    ensures v.ExerciseVal? ==> |r| == |v.exercises|
    ensures !v.ExerciseVal? ==> |r| == 1
  {
    match v
    case SleepVal(s) => [FlatRecord(k.Name(), DumpSleep(s))]
    case ExerciseVal(xs) => seq(|xs|, i requires 0 <= i < |xs| => FlatRecord(k.Name(), DumpExercise(xs[i])))
    case WellnessVal(w) => [FlatRecord(k.Name(), DumpWellness(w))]
    case TextVal(t) => [FlatRecord(k.Name(), [Field("value", TextS(t))])]
    case StampVal(t) => [FlatRecord(k.Name(), [Field("value", StampS(t))])]
  }

  /** The records of the keys `ks`, in that order, skipping falsy values and Notion-only keys. */
  function RecordsFrom(d: Entities, ks: seq<Key>): (r: seq<FlatRecord>)
    requires WellShaped(d)
  {
    if ks == [] then []
    else
      var k := ks[0];
      (if Holds(d, k) && !NotionOnly(k) then RecordsFor(k, d[k]) else []) + RecordsFrom(d, ks[1..])
  }

  /** `records_to_save`: the entities arrive in schema order (the extractor builds them that way). */
  function Records(d: Entities): seq<FlatRecord>
    requires WellShaped(d)
  {
    RecordsFrom(d, Schema)
  }

  /** How many records a key contributes. */
  function Contribution(d: Entities, k: Key): (n: nat)
    requires WellShaped(d)
  {
    if !Holds(d, k) || NotionOnly(k) then 0
    else if d[k].ExerciseVal? then |d[k].exercises| else 1
  }

  /** Every record is tagged with one of the listed keys that holds a value and is not Notion-only;
      each such key contributes one record per list item, or one for a single value. */
  lemma {:induction false} RecordsFromSound(d: Entities, ks: seq<Key>)
    requires WellShaped(d)
    ensures forall r | r in RecordsFrom(d, ks) :: exists k | k in ks :: Holds(d, k) && !NotionOnly(k) && r.kind == k.Name()
    ensures |RecordsFrom(d, ks)| == 0 <==> forall k | k in ks :: Contribution(d, k) == 0
  {
    if ks != [] {
      var k := ks[0];
      RecordsFromSound(d, ks[1..]);
      var own := if Holds(d, k) && !NotionOnly(k) then RecordsFor(k, d[k]) else [];
      assert RecordsFrom(d, ks) == own + RecordsFrom(d, ks[1..]);
      forall r | r in RecordsFrom(d, ks) ensures exists k' | k' in ks :: Holds(d, k') && !NotionOnly(k') && r.kind == k'.Name() {
        if r in own {
          var i :| 0 <= i < |own| && own[i] == r;
          assert k in ks;
        } else {
          assert r in RecordsFrom(d, ks[1..]);
          var k' :| k' in ks[1..] && Holds(d, k') && !NotionOnly(k') && r.kind == k'.Name();
          assert k' in ks;
        }
      }
      assert |own| == Contribution(d, k);
      assert forall k' | k' in ks :: k' == k || k' in ks[1..];
    }
  }

  lemma {:induction false} RecordsFromAppend(d: Entities, a: seq<Key>, b: seq<Key>)
    requires WellShaped(d)
    ensures RecordsFrom(d, a + b) == RecordsFrom(d, a) + RecordsFrom(d, b)
  {
    if a != [] {
      var k := a[0];
      var head := if Holds(d, k) && !NotionOnly(k) then RecordsFor(k, d[k]) else [];
      assert (a + b)[0] == k && (a + b)[1..] == a[1..] + b;
      assert RecordsFrom(d, a + b) == head + RecordsFrom(d, a[1..] + b);
      RecordsFromAppend(d, a[1..], b);
      assert RecordsFrom(d, a) == head + RecordsFrom(d, a[1..]);
    } else {
      assert a + b == b;
    }
  }

  /** Keys with nothing stored under them give no records. */
  lemma {:induction false} RecordsFromNone(d: Entities, ks: seq<Key>)
    requires WellShaped(d)
    requires forall i | 0 <= i < |ks| :: ks[i] !in d
    ensures RecordsFrom(d, ks) == []
  {
    if ks != [] {
      RecordsFromNone(d, ks[1..]);
    }
  }

  /** Nothing is saved exactly when every held value is a task list or a link list. */
  lemma NothingToSave(d: Entities)
    requires Stored(d)
    ensures Records(d) == [] <==> forall k | k in d :: NotionOnly(k)
  {
    RecordsFromSound(d, Schema);
    forall k | k in d ensures Contribution(d, k) == 0 <==> NotionOnly(k) {
      SchemaComplete(k);
    }
    forall k | k in Schema && k !in d ensures Contribution(d, k) == 0 {
    }
  }

  // ---------------------------------------------------------------- summary reply

  const NoDataMessage: string := "No data extracted to save."
  const SummaryHeader: string := "I have logged the following:"
  const SyncedLine: string := "\U{2728} Synced your data directly to Notion!"
  const PartialSyncPrefix: string := "\U{26A0}\U{FE0F} Synced to Notion, but failed to sync: "

  /** `f"{k.replace('_', ' ').capitalize()}: {display_val}"` */
  function FieldText(f: Field, show: Scalar -> string): string {
    Capitalize(ReplaceChar(f.name, '_', ' ')) + ": " + show(f.value)
  }

  function FieldTexts(fields: seq<Field>, show: Scalar -> string): (r: seq<string>)
    ensures |r| == |fields|
    ensures forall i | 0 <= i < |fields| :: r[i] == FieldText(fields[i], show)
  {
    seq(|fields|, i requires 0 <= i < |fields| => FieldText(fields[i], show))
  }

  /** The start of a record's summary line: its key in title case, in bold. */
  function LineHead(kind: string): string {
    "- <b>" + Title(kind) + "</b>: "
  }

  /** The summary line of one record: the bold key, then each field's text at its place in the
      comma-separated list. */
  function SummaryLine(rec: FlatRecord, show: Scalar -> string): (line: string)
    ensures LineHead(rec.kind) <= line && line[|LineHead(rec.kind)|..] == Join(FieldTexts(rec.fields, show), ", ")
    ensures PartsAt(line, |LineHead(rec.kind)|, FieldTexts(rec.fields, show), ", ")
  {
    var head := LineHead(rec.kind);
    JoinAfter(head, FieldTexts(rec.fields, show), ", ");
    head + Join(FieldTexts(rec.fields, show), ", ")
  }

  /** The reply's last line, after the sync call returned the targets that failed. */
  function SyncLine(failed: seq<string>): (r: string)
    ensures failed == [] ==> r == SyncedLine
    ensures failed != [] ==> PartialSyncPrefix <= r && r[|PartialSyncPrefix|..] == Join(failed, ", ")
    ensures failed != [] ==> PartsAt(r, |PartialSyncPrefix|, failed, ", ")
  {
    if failed == [] then SyncedLine
    else
      JoinAfter(PartialSyncPrefix, failed, ", ");
      PartialSyncPrefix + Join(failed, ", ")
  }

  // ---------------------------------------------------------------- the node

  /** The arguments of `append_notion_blocks`. */
  datatype SyncCall = SyncCall(
    tasks: seq<TaskItem>,
    links: seq<ReadingLink>,
    sleep: Option<SleepEntry>,
    exercise: Option<seq<ExerciseEntry>>,
    wellness: Option<WellnessEntry>,
    journalNote: Option<string>)

  /** The condition guarding the sync call. Reminders alone are not synced. */
  predicate NeedsSync(d: Entities) {
    || Holds(d, TasksKey) || Holds(d, ReadingLinksKey) || Holds(d, SleepKey)
    || Holds(d, ExerciseKey) || Holds(d, WellnessKey) || Holds(d, JournalNoteKey)
  }

  function SyncArgs(d: Entities): (c: SyncCall)
    requires WellShaped(d)
    ensures TasksKey in d ==> c.tasks == d[TasksKey].tasks
    ensures TasksKey !in d ==> c.tasks == []
    ensures ReadingLinksKey in d ==> c.links == d[ReadingLinksKey].links
    ensures ReadingLinksKey !in d ==> c.links == []
    ensures c.sleep.Some? <==> SleepKey in d
    ensures c.exercise.Some? <==> ExerciseKey in d
    ensures c.wellness.Some? <==> WellnessKey in d
    ensures c.journalNote.Some? <==> JournalNoteKey in d
    ensures SleepKey in d ==> c.sleep == Some(d[SleepKey].sleep)
    ensures ExerciseKey in d ==> c.exercise == Some(d[ExerciseKey].exercises)
    ensures WellnessKey in d ==> c.wellness == Some(d[WellnessKey].wellness)
    ensures JournalNoteKey in d ==> c.journalNote == Some(d[JournalNoteKey].text)
  {
    SyncCall(
      if TasksKey in d then d[TasksKey].tasks else [],
      if ReadingLinksKey in d then d[ReadingLinksKey].links else [],
      if SleepKey in d then Some(d[SleepKey].sleep) else None,
      if ExerciseKey in d then Some(d[ExerciseKey].exercises) else None,
      if WellnessKey in d then Some(d[WellnessKey].wellness) else None,
      if JournalNoteKey in d then Some(d[JournalNoteKey].text) else None)
  }

  /** What the node did: the new state, the records handed to `save_records` if it was called,
      and the arguments of the Notion sync if it was called. */
  datatype Outcome = Outcome(state: AgentState, saved: Option<seq<FlatRecord>>, synced: Option<SyncCall>)

  /** The lines of the reply: the header, one summary line per record in order, and the sync
      line exactly when Notion was called. */
  function ReplyLines(d: Entities, failed: seq<string>, show: Scalar -> string): (lines: seq<string>)
    requires WellShaped(d)
    ensures |lines| == 1 + |Records(d)| + (if NeedsSync(d) then 1 else 0)
    ensures lines[0] == SummaryHeader
    ensures forall i | 0 <= i < |Records(d)| :: lines[1 + i] == SummaryLine(Records(d)[i], show)
    ensures NeedsSync(d) ==> lines[|lines| - 1] == SyncLine(failed)
  {
    var body := SummaryLines(Records(d), show);
    var tail := if NeedsSync(d) then [SyncLine(failed)] else [];
    LinesLayout(SummaryHeader, body, tail);
    [SummaryHeader] + body + tail
  }

  /** A header line, then a body, then a tail: where each line lands. */
  lemma LinesLayout(header: string, body: seq<string>, tail: seq<string>)
    ensures |[header] + body + tail| == 1 + |body| + |tail|
    ensures ([header] + body + tail)[0] == header
    ensures forall i | 0 <= i < |body| :: ([header] + body + tail)[1 + i] == body[i]
    ensures |tail| == 1 ==> ([header] + body + tail)[|body| + 1] == tail[0]
  {
  }

  function SummaryLines(records: seq<FlatRecord>, show: Scalar -> string): (lines: seq<string>)
    ensures |lines| == |records|
    ensures forall i | 0 <= i < |records| :: lines[i] == SummaryLine(records[i], show)
  {
    seq(|records|, i requires 0 <= i < |records| => SummaryLine(records[i], show))
  }

  /** `persister.run`. `failed` is what the Notion sync reports when it is called. */
  function Persist(s: AgentState, failed: seq<string>, show: Scalar -> string): (o: Outcome)
    requires WellShaped(s.entities)
    ensures s.entities == map[] ==> o == Outcome(s.(response := Some(NoDataMessage)), None, None)
    ensures s.entities != map[] ==>
      && o.state == s.(entities := map[], structuredRecords := Records(s.entities), response := o.state.response)
      && (o.saved.Some? <==> Records(s.entities) != [])
      && (o.saved.Some? ==> o.saved.value == o.state.structuredRecords)
      && (o.synced.Some? <==> NeedsSync(s.entities))
      && (o.synced.Some? ==> o.synced.value == SyncArgs(s.entities))
      && o.state.response == Some(Join(ReplyLines(s.entities, failed, show), "\n"))
    ensures o.state.response.Some?
    ensures s.entities != map[] ==> SummaryHeader <= o.state.response.value
  {
    var d := s.entities;
    if d == map[] then Outcome(s.(response := Some(NoDataMessage)), None, None)
    else
      var records := Records(d);
      var lines := ReplyLines(d, failed, show);
      JoinAt(lines, "\n", 0);
      Outcome(
        s.(entities := map[], structuredRecords := records, response := Some(Join(lines, "\n"))),
        if records != [] then Some(records) else None,
        if NeedsSync(d) then Some(SyncArgs(d)) else None)
  }

  lemma ReminderRecords(d: Entities, t: string)
    requires t != "" && d == map[ReminderTextKey := TextVal(t)]
    ensures Records(d) == [FlatRecord(ReminderTextKey.Name(), [Field("value", TextS(t))])]
  {
    assert Schema[..5] == [SleepKey, ExerciseKey, WellnessKey, TasksKey, ReadingLinksKey];
    assert Schema[6..] == [ReminderDatetimeKey, JournalNoteKey];
    RecordsFromNone(d, Schema[..5]);
    RecordsFromNone(d, Schema[6..]);
    RecordsFromAppend(d, Schema[..5], Schema[5..]);
    assert Schema == Schema[..5] + Schema[5..];
    assert RecordsFrom(d, Schema[5..]) == RecordsFor(ReminderTextKey, d[ReminderTextKey]) + RecordsFrom(d, Schema[6..]);
  }

  /** A reminder alone is saved as a `{"value": ...}` record and is not sent to Notion. */
  lemma ReminderSavedNotSynced(s: AgentState, t: string, failed: seq<string>, show: Scalar -> string)
    requires t != "" && s.entities == map[ReminderTextKey := TextVal(t)]
    ensures Persist(s, failed, show).saved == Some([FlatRecord(ReminderTextKey.Name(), [Field("value", TextS(t))])])
    ensures Persist(s, failed, show).synced.None?
  {
    assert ReminderTextKey in s.entities;
    ReminderRecords(s.entities, t);
  }

  /** Tasks alone go to Notion and nothing is saved; the entities are still cleared. */
  lemma TasksSyncedNotSaved(s: AgentState, ts: seq<TaskItem>, failed: seq<string>, show: Scalar -> string)
    requires ts != [] && s.entities == map[TasksKey := TaskVal(ts)]
    ensures Persist(s, failed, show).saved.None?
    ensures Persist(s, failed, show).synced == Some(SyncCall(ts, [], None, None, None, None))
    ensures Persist(s, failed, show).state.entities == map[]
  {
    assert TasksKey in s.entities;
    NothingToSave(s.entities);
  }
}
