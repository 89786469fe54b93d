/** The values the agent keeps under `AgentState.entities`, and the flat records it stores.

    Python keeps `entities` as `dict[str, Any]`. Under each key of the extraction schema the
    extractor only ever stores the kind of value that schema field has, so the model gives
    each kind its own constructor and states the discipline as `WellShaped`. */
module Entities {
  import opened Wrappers
  import opened Tasks
  import opened Wellness

  datatype Value =
    | SleepVal(sleep: SleepEntry)
    | ExerciseVal(exercises: seq<ExerciseEntry>)
    | WellnessVal(wellness: WellnessEntry)
    | TaskVal(tasks: seq<TaskItem>)
    | LinkVal(links: seq<ReadingLink>)
    | TextVal(text: string)
    | StampVal(stamp: string)  // a datetime, kept as its ISO text

  /** The fields of `ExtractedData`; `Name` is the dictionary key Python uses. */
  datatype Key =
    | SleepKey | ExerciseKey | WellnessKey | TasksKey | ReadingLinksKey
    | ReminderTextKey | ReminderDatetimeKey | JournalNoteKey
  {
    function Name(): string {
      match this
      case SleepKey => "sleep"
      case ExerciseKey => "exercise"
      case WellnessKey => "wellness"
      case TasksKey => "tasks"
      case ReadingLinksKey => "reading_links"
      case ReminderTextKey => "reminder_text"
      case ReminderDatetimeKey => "reminder_datetime"
      case JournalNoteKey => "journal_note"
    }
  }

  /** The schema fields in declaration order, the order `model_fields` iterates them. */
  const Schema: seq<Key> :=
    [SleepKey, ExerciseKey, WellnessKey, TasksKey, ReadingLinksKey, ReminderTextKey, ReminderDatetimeKey, JournalNoteKey]

  lemma SchemaComplete(k: Key)
    ensures k in Schema
  {
  }

  type Entities = map<Key, Value>

  /** Whether `v` is the kind of value the schema field `k` holds. */
  predicate Fits(k: Key, v: Value) {
    match v
    case SleepVal(_) => k == SleepKey
    case ExerciseVal(_) => k == ExerciseKey
    case WellnessVal(_) => k == WellnessKey
    case TaskVal(_) => k == TasksKey
    case LinkVal(_) => k == ReadingLinksKey
    case TextVal(_) => k == ReminderTextKey || k == JournalNoteKey
    case StampVal(_) => k == ReminderDatetimeKey
  }

  predicate SameKind(a: Value, b: Value) {
    && (a.SleepVal? <==> b.SleepVal?)
    && (a.ExerciseVal? <==> b.ExerciseVal?)
    && (a.WellnessVal? <==> b.WellnessVal?)
    && (a.TaskVal? <==> b.TaskVal?)
    && (a.LinkVal? <==> b.LinkVal?)
    && (a.TextVal? <==> b.TextVal?)
  }

  lemma FitsSameKind(k: Key, a: Value, b: Value)
    requires Fits(k, a) && Fits(k, b)
    ensures SameKind(a, b)
  {
  }

  /** Under every schema key sits a value of that field's kind. */
  predicate WellShaped(d: Entities) {
    forall k | k in d :: Fits(k, d[k])
  }

  /** Python's `bool(v)`: models and datetimes are always true, lists and strings when non-empty. */
  predicate Truthy(v: Value) {
    match v
    case SleepVal(_) => true
    case ExerciseVal(xs) => xs != []
    case WellnessVal(_) => true
    case TaskVal(ts) => ts != []
    case LinkVal(ls) => ls != []
    case TextVal(t) => t != ""
    case StampVal(_) => true
  }

  predicate IsEmptyList(v: Value) {
    || v == ExerciseVal([])
    || v == TaskVal([])
    || v == LinkVal([])
  }

  function Get(d: Entities, k: Key): Option<Value> {
    if k in d then Some(d[k]) else None
  }

  /** `k in d and d[k]` */
  predicate Holds(d: Entities, k: Key) {
    k in d && Truthy(d[k])
  }

  /** What the extractor leaves in the state: under each key a truthy value of that field's
      kind. The empty map qualifies. */
  predicate Stored(d: Entities) {
    && WellShaped(d)
    && (forall k | k in d :: Truthy(d[k]))
  }

  /** Every model instance held is one pydantic accepted. */
  predicate ValidValue(v: Value) {
    match v
    case SleepVal(s) => ValidSleep(s) && Derived(s)
    case ExerciseVal(xs) => forall i | 0 <= i < |xs| :: ValidExercise(xs[i])
    case WellnessVal(w) => ValidWellness(w)
    case TaskVal(ts) => forall i | 0 <= i < |ts| :: ValidTask(ts[i])
    case LinkVal(_) => true
    case TextVal(_) => true
    case StampVal(_) => true
  }

  predicate ValidEntities(d: Entities) {
    forall k | k in d :: ValidValue(d[k])
  }

  // ---------------------------------------------------------------- flat records

  /** One field value of a `model_dump`: enum members stay enum members, as in Python mode. */
  datatype Scalar =
    | IntS(i: int)
    | RealS(r: real)
    | TextS(s: string)
    | DateS(d: Date)
    | StampS(stamp: string)
    | QualityS(quality: SleepQuality)
    | ExerciseTypeS(exerciseType: ExerciseType)
    | MusclesS(muscles: seq<MuscleGroup>)
    | PracticeS(practice: MeditationType)
    | MinutesS(minutes: int)  // `duration_hours`, kept in minutes

  datatype Field = Field(name: string, value: Scalar)

  /** A stored record: the fields of one dumped item and its `"type"` tag, the entity key's name. */
  datatype FlatRecord = FlatRecord(kind: string, fields: seq<Field>)
}
