# Life OS agent core in Dafny

This project models the deterministic core of Life OS, a Telegram personal assistant. A user
sends a message such as "slept 11pm to 6:30, ran 5k". The agent graph runs that message
through four steps:

1. An input guard checks for prompt injection and crisis language, and truncates long
   messages.
2. A classifier picks an intent.
3. An extractor merges the newly extracted entities with the ones held over from the
   previous turn, then asks for any required fields that are still missing.
4. A persister flattens the entities into records. It saves them, syncs tasks, reading
   links and wellness data to Notion, and clears the entities. An output guard closes the
   turn.

The evaluation harness scores an extraction against a golden dataset by slot-filling
precision, recall and F1.

Modules: three shared helper modules (`Wrappers`, `Text`, `Entities`), then one module per
source file or group of source files:

- `Wrappers`: `Option`/`Result`, and `Overlay`, the `{**old, **new}` merge of two
  optional fields.
- `Text`: the string builtins the core uses: ASCII `lower`, `capitalize`, `title`, `replace`,
  `count`, `rstrip`, `strip`, `join`.
- `Tasks`, `Wellness`: the pydantic models, with their field bounds, validators and the
  `compute_duration` model validator. The constructors return `Result` with the names of the
  fields that failed.
- `Entities`: the entities dictionary. It maps each `ExtractedData` field to a value of that
  field's kind.
- `State`: `AgentState`.
- `Guardrails`: the two regular expressions, `check_injection` and `check_crisis`.
- `Guard`: `run_input_guard` and `run_output_guard`.
- `Extractor`: the deterministic part of `extractor.run`, covering the new-data filter, the
  merge, the missing-field list and the clarifying question.
- `Persister`: `persister.run`. The database save and the Notion sync are returned as
  values rather than performed.
- `Graph`: `should_abort`, `route_intent`, `check_missing_fields`, the edge table, and a
  whole turn as a walk over the nodes. An `Oracle` supplies what the language model,
  Notion and `str` return.
- `Metrics`: `_values_match` and `slot_fill_f1`.

The model follows the code as written in three places:

- The merge always merges against the entities still stored from the last turn.
- `clarification_count` is never written by any node. `Graph.ClarificationNeverCapped` and
  `Graph.CountStaysBelowCeiling` state the consequence: a turn that still misses fields
  asks again, forever, instead of persisting after three questions.
- The extractor keeps model objects in `entities`, not dictionaries. The extractor unit
  test that expects dictionaries disagrees with the code; the model follows the code.

## Model

| member | source | states |
|---|---|---|
| Wrappers.Overlay | src/life_os/agent/nodes/extractor.py:115-117 | a field is set after `{**old, **new}` iff it is set on either side, and the new value wins whenever it is set |
| Text.Lower | src/life_os/models/guardrails.py:12-15 | lower-casing keeps the length and maps every character through the one-character case map |
| Text.Capitalize | src/life_os/agent/nodes/persister.py:54 | the first character is upper-cased and the rest lower-cased, length kept |
| Text.TitleFrom | src/life_os/agent/nodes/persister.py:57 | a character is upper-cased exactly when no letter precedes it, otherwise lower-cased |
| Text.ReplaceChar | src/life_os/agent/nodes/persister.py:54 | every `_` becomes a space and nothing else changes |
| Text.Title | src/life_os/agent/nodes/persister.py:57 | title case keeps the length and upper-cases exactly the characters that follow no letter, lower-casing the rest |
| Text.Count | src/life_os/models/tasks.py:24 | the count of a character is at most the length |
| Text.CountOccurrences | src/life_os/models/tasks.py:24 | the count is the number of occurrences of the character: its multiplicity in the text |
| Text.RStrip | src/life_os/models/tasks.py:24 | the result is a prefix that no longer ends in the character, and everything cut off was that character |
| Text.LStripSpec | src/life_os/evals/metrics.py:107 | `lstrip` keeps a suffix that starts with no whitespace, and everything it cut off is whitespace |
| Text.RStripSpec | src/life_os/evals/metrics.py:107 | `rstrip` keeps a prefix that ends with no whitespace, and everything it cut off is whitespace |
| Text.StripSpec | src/life_os/evals/metrics.py:107 | `strip` leaves exactly the text between a leading and a trailing run of whitespace, and that text neither starts nor ends with whitespace |
| Text.JoinLayout | src/life_os/agent/nodes/persister.py:87 | `sep.join(parts)` is empty for no parts; otherwise every part sits at its offset, a separator sits between neighbours, and the text ends with the last part |
| Tasks.NewTask | src/life_os/models/tasks.py:6-12 | a task is accepted iff its priority is absent or within 1..3, and a rejected one names `priority` |
| Tasks.UnionTask | src/life_os/agent/nodes/extractor.py:108-111 | merging one task into another keeps the new text, overlays the priority and keeps the priority bound |
| Tasks.UnionLink | src/life_os/agent/nodes/extractor.py:108-111 | merging one link into another keeps the new URL and overlays the context |
| Tasks.UrlStr | src/life_os/models/tasks.py:21-24 | the clean URL is a prefix of the URL; it differs exactly when the URL ends in `/` and has three slashes, and then only slashes were removed |
| Tasks.UrlStrIdempotent | src/life_os/models/tasks.py:21-24 | cleaning a cleaned URL changes nothing |
| Tasks.UrlStrDropsOriginSlash | src/life_os/models/tasks.py:24 | `http://a.io/` is cleaned to `http://a.io` |
| Tasks.UrlStrKeepsPathSlash | src/life_os/models/tasks.py:24 | `http://a.io/b/` keeps its trailing slash, because it has four slashes |
| Wellness.SleepSpan | src/life_os/models/wellness.py:65-71 | for clock times within a day, the span is between 1 minute and a full day; bedtime plus the span is the wake time modulo a day; and the span is a full day exactly when the two times are equal |
| Wellness.ComputeDuration | src/life_os/models/wellness.py:58-76 | only the duration may change; a given duration is never overridden; and a duration is present afterwards iff it was given or both hours are set |
| Wellness.NewSleep | src/life_os/models/wellness.py:29-84 | a sleep entry is accepted iff every bound and the daytime-bedtime rule hold; errors are listed otherwise; an accepted entry carries its derived duration and is otherwise the input |
| Wellness.DerivedDurationInDay | src/life_os/models/wellness.py:61-75 | a computed duration lies in (0, 24h], and it carries the bedtime to the wake time around the clock |
| Wellness.DurationExamples | src/life_os/models/wellness.py:58-84 | 23:00 to 06:30 gives 450 minutes; equal times give a full day; a given duration wins; a 12 o'clock bedtime is rejected as daytime |
| Wellness.UnionSleep | src/life_os/agent/nodes/extractor.py:114-117 | rebuilding a sleep entry from both dumps overlays each field, keeps any set duration and derives a missing one |
| Wellness.UnionSleepRevalidates | src/life_os/agent/nodes/extractor.py:114-117 | two valid sleep entries merge into one that the constructor accepts and reproduces |
| Wellness.UnionKeepsEarlierDuration | src/life_os/agent/nodes/extractor.py:114-117 | a duration derived on the first turn survives a later correction of the wake hour |
| Wellness.NewExercise | src/life_os/models/wellness.py:110-125 | an exercise entry is accepted iff its duration, distance, intensity and notes are within bounds; the errors are listed otherwise |
| Wellness.UnionExercise | src/life_os/agent/nodes/extractor.py:108-111 | merging a single exercise overlays every field and keeps validity |
| Wellness.NewWellness | src/life_os/models/wellness.py:136-154 | a wellness entry is accepted iff its minutes, scores and notes are within bounds; the errors are listed otherwise |
| Wellness.UnionWellness | src/life_os/agent/nodes/extractor.py:114-117 | merging wellness entries overlays every field and keeps validity |
| Entities.SchemaComplete | src/life_os/models/wellness.py:163-170 | every entity key is a field of `ExtractedData` |
| Entities.FitsSameKind | src/life_os/models/wellness.py:163-170 | two values stored under one field are of the same kind, so the merge never combines unlike values |
| Guardrails.OccursAtLower | src/life_os/models/guardrails.py:13-15 | a case-insensitive occurrence is an exact occurrence in the lower-cased text |
| Guardrails.NewInputGuard | src/life_os/models/guardrails.py:32-38 | the guard is refused iff the text contains an injection pattern; otherwise it keeps the text, marked safe and not yet in crisis |
| Guardrails.CheckCrisis | src/life_os/models/guardrails.py:40-44 | the crisis flag ends up set iff it was set already or the text matches a crisis phrase on word boundaries; nothing else changes |
| Guardrails.CheckCrisisIdempotent | src/life_os/models/guardrails.py:40-44 | checking twice is checking once |
| Guardrails.InjectionExample | src/life_os/models/guardrails.py:13-15 | "Ignore previous instructions..." is an injection |
| Guardrails.InjectionInsideWord | src/life_os/models/guardrails.py:13-15 | the injection pattern has no word boundaries, so "jailbreaking" matches |
| Guardrails.CrisisExample | src/life_os/models/guardrails.py:12 | "kill myself" and "Self-Harm" (any character between the words) are crisis phrases |
| Guardrails.CrisisExampleIsNoInjection | src/life_os/models/guardrails.py:13-15 | a crisis message contains no injection pattern |
| Guardrails.CrisisNeedsWordBoundary | src/life_os/models/guardrails.py:12 | "suicides" is not a crisis phrase, because of the trailing word boundary |
| Guard.Truncate | src/life_os/agent/nodes/guard.py:44-47 | input of at most 2000 characters is kept; longer input is cut to its first 2000 characters followed by the truncation marker |
| Guard.InputGuardNode | src/life_os/agent/nodes/guard.py:27-59 | the turn aborts iff the truncated text has an injection or crisis pattern; an injection gets the refusal even when a crisis is also present; a passing message is stored truncated |
| Guard.InjectionTakesPriority | src/life_os/agent/nodes/guard.py:49-57 | text with both an injection and a crisis phrase is refused rather than answered with crisis resources |
| Guard.SafeInputStored | src/life_os/agent/nodes/guard.py:44-59 | a passing message is stored as is, or truncated with the marker, and the response is left alone |
| Guard.CrisisExample | src/life_os/agent/nodes/guard.py:55-57 | a crisis message aborts with the crisis resources |
| Guard.CrisisMessageNamesICall | src/life_os/agent/nodes/guard.py:18-24 | the crisis message names the iCall helpline |
| Guard.FallbackRecord | src/life_os/agent/nodes/guard.py:77-78 | the fallback is a journal record holding the raw message as its note |
| Guard.OutputGuardNode | src/life_os/agent/nodes/guard.py:62-79 | after the output guard there is always at least one record; existing records are untouched, and otherwise only the journal fallback is added |
| Guard.OutputGuardIdempotent | src/life_os/agent/nodes/guard.py:62-79 | running the output guard twice is running it once |
| Extractor.FieldOf | src/life_os/agent/nodes/extractor.py:95-96 | every extracted field value fits its field's kind |
| Extractor.NewData | src/life_os/agent/nodes/extractor.py:93-98 | a field is in the new data iff it is not None and not an empty list, and it then holds the extracted value |
| Extractor.Combine | src/life_os/agent/nodes/extractor.py:105-119 | combining two stored values of one kind yields a value of that kind (the per-kind rules are stated by the Merge lemmas below) |
| Extractor.MergeValue | src/life_os/agent/nodes/extractor.py:102-123 | a field survives the merge iff the old or the new value is truthy |
| Extractor.CombineTruthy | src/life_os/agent/nodes/extractor.py:105-119 | combining two truthy values gives a truthy value |
| Extractor.Merge | src/life_os/agent/nodes/extractor.py:100-123 | the merged keys are exactly the keys truthy in the stored or the new data, and the result is again well formed |
| Extractor.MergeKeepsStored | src/life_os/agent/nodes/extractor.py:122-123 | a stored field with no new value is kept unchanged |
| Extractor.MergeTakesNew | src/life_os/agent/nodes/extractor.py:118-121 | a new field replaces the stored one when nothing was stored or it is plain text or a timestamp |
| Extractor.MergeOverlaysSleep | src/life_os/agent/nodes/extractor.py:114-117 | a sleep entry is overlaid field by field, so a field set on either turn stays set and the newer value wins |
| Extractor.MergeExerciseLists | src/life_os/agent/nodes/extractor.py:106-113 | one stored and one new exercise are merged into one entry; any other list lengths are concatenated |
| Extractor.MergeTaskLists | src/life_os/agent/nodes/extractor.py:106-113 | one stored and one new task merge into one task with the new text and the priority overlaid; any other list lengths are concatenated, stored tasks first |
| Extractor.MergeLinkLists | src/life_os/agent/nodes/extractor.py:106-113 | one stored and one new link merge into one link with the new URL and the context overlaid; any other list lengths are concatenated, stored links first |
| Extractor.MergeOverlaysWellness | src/life_os/agent/nodes/extractor.py:114-117 | a wellness entry is overlaid field by field: the new date, a field set on either turn stays set, and the newer value wins |
| Extractor.CombineValid | src/life_os/agent/nodes/extractor.py:105-119 | combining two valid values gives a valid value |
| Extractor.MergeValid | src/life_os/agent/nodes/extractor.py:100-123 | merging valid extracted data into valid stored entities keeps every bound |
| Extractor.LabelTextInjective | src/life_os/agent/nodes/extractor.py:126-142 | the five missing-field phrases are pairwise different |
| Extractor.TypeGap | src/life_os/agent/nodes/extractor.py:129-131 | the first exercise without a type, after only typed ones |
| Extractor.DurationGap | src/life_os/agent/nodes/extractor.py:132-133 | the first exercise without a duration, after only timed ones |
| Extractor.ExerciseLabelsSaturated | src/life_os/agent/nodes/extractor.py:128-133 | once both exercise phrases are listed, the scan adds nothing |
| Extractor.ExerciseLabelsAfterType | src/life_os/agent/nodes/extractor.py:128-133 | with the type phrase already listed, the scan adds the duration phrase iff some exercise lacks a duration |
| Extractor.ExerciseLabelsAfterDuration | src/life_os/agent/nodes/extractor.py:128-133 | with the duration phrase already listed, the scan adds the type phrase iff some exercise lacks a type |
| Extractor.ExerciseLabelsInDiscoveryOrder | src/life_os/agent/nodes/extractor.py:128-133 | the exercise scan lists the type and duration phrases in the order their first gaps appear |
| Extractor.SleepLabelsAppend | src/life_os/agent/nodes/extractor.py:135-142 | the sleep check appends bedtime, wake-up time and quality in that order, one for each unset field |
| Extractor.MissingLabelsOrder | src/life_os/agent/nodes/extractor.py:125-142 | the missing list is the exercise phrases followed by the sleep phrases |
| Extractor.ExerciseGapLabelsFacts | src/life_os/agent/nodes/extractor.py:128-133 | the exercise phrases are distinct, and each is listed iff some exercise lacks that field |
| Extractor.SleepGapLabelsFacts | src/life_os/agent/nodes/extractor.py:135-142 | the sleep phrases are distinct, and each is listed iff the stored sleep entry lacks that field |
| Extractor.MissingLabelsDistinct | src/life_os/agent/nodes/extractor.py:125-142 | no phrase is asked for twice |
| Extractor.MissingExerciseLabelsExact | src/life_os/agent/nodes/extractor.py:128-133 | exercise type or duration is asked for iff some merged exercise lacks it |
| Extractor.MissingSleepLabelsExact | src/life_os/agent/nodes/extractor.py:135-142 | bedtime, wake-up time or quality is asked for iff the merged sleep entry lacks it |
| Extractor.MissingPhrasesDistinct | src/life_os/agent/nodes/extractor.py:125-142 | distinct labels give distinct phrases |
| Extractor.ClarifyMessage | src/life_os/agent/nodes/extractor.py:152-154 | there is a question iff something is missing; it is the fixed prefix, the missing phrases joined by ", " with every phrase at its place, and `?` |
| Extractor.ExtractNode | src/life_os/agent/nodes/extractor.py:93-156 | the node stores the merge, lists the missing phrases, appends the user message to the history, asks iff something is missing, and leaves the clarification count and every other field alone |
| Extractor.AsksIffMissing | src/life_os/agent/nodes/extractor.py:146-156 | the node reports missing fields iff the merged entities lack a required field |
| Extractor.SleepOnlyMissesTimesAndQuality | src/life_os/agent/nodes/extractor.py:125-142 | a sleep entry with only a duration misses bedtime, wake-up time and sleep quality, in that order |
| Extractor.SleepQuestion | src/life_os/agent/nodes/extractor.py:152-154 | the three sleep phrases are asked in one question, comma-separated, in order |
| Extractor.SleepOnlyAsksForTimesAndQuality | src/life_os/agent/nodes/extractor.py:125-154 | a sleep entry with only a duration asks for bedtime, wake-up time and sleep quality, in that order, in one question |
| Extractor.SingleTaskReplacedByNewTask | src/life_os/agent/nodes/extractor.py:106-111 | one stored task and one new task merge into the new task: the old text is lost |
| Persister.Present | src/life_os/agent/nodes/persister.py:40 | dumping with `exclude_none` gives at most one field per slot |
| Persister.PresentKeepsValued | src/life_os/agent/nodes/persister.py:40 | the dump holds exactly the fields whose slots have a value, with that value |
| Persister.PresentKeepsOrder | src/life_os/agent/nodes/persister.py:40 | the dump keeps the declaration order: dumping two runs of slots is dumping each in turn |
| Persister.PresentNames | src/life_os/agent/nodes/persister.py:40 | every dumped field is a field of the model |
| Persister.SleepSlots | src/life_os/agent/nodes/persister.py:39-40 | a sleep dump lists the sleep fields in declaration order |
| Persister.ExerciseSlots | src/life_os/agent/nodes/persister.py:39-40 | an exercise dump lists the exercise fields in declaration order |
| Persister.WellnessSlots | src/life_os/agent/nodes/persister.py:39-40 | a wellness dump lists the wellness fields in declaration order |
| Persister.ReadPresent | src/life_os/agent/nodes/persister.py:40 | reading the declared fields back from a dump recovers every value, with None for the ones left out |
| Persister.SleepDumpRoundTrip | src/life_os/agent/nodes/persister.py:39-40 | loading a sleep record gives back the entry that was dumped |
| Persister.ExerciseDumpRoundTrip | src/life_os/agent/nodes/persister.py:39-40 | loading an exercise record gives back the entry that was dumped |
| Persister.WellnessDumpRoundTrip | src/life_os/agent/nodes/persister.py:39-40 | loading a wellness record gives back the entry that was dumped |
| Persister.RecordsFor | src/life_os/agent/nodes/persister.py:36-45 | one record per list item, or one for a single value, each tagged with the field name |
| Persister.RecordsFromSound | src/life_os/agent/nodes/persister.py:28-45 | every record comes from a stored field that is not Notion-only, and there are no records iff no field contributes any |
| Persister.RecordsFromAppend | src/life_os/agent/nodes/persister.py:28-45 | the records of two runs of keys are the records of each in order |
| Persister.RecordsFromNone | src/life_os/agent/nodes/persister.py:28-30 | keys that are not stored contribute no records |
| Persister.NothingToSave | src/life_os/agent/nodes/persister.py:25-45 | nothing is saved iff every stored field is Notion-only (tasks, reading links) |
| Persister.SummaryLine | src/life_os/agent/nodes/persister.py:48-57 | a record's line is its title-cased key in bold followed by exactly the field texts joined by ", ", every field's text at its place |
| Persister.SyncLine | src/life_os/agent/nodes/persister.py:77-82 | no failures give the success line; otherwise the warning prefix is followed by the failed targets joined by ", ", every target at its place |
| Persister.ReplyLines | src/life_os/agent/nodes/persister.py:26-82 | the reply lines are the header, one summary line per record in order, and the sync line exactly when Notion was called |
| Persister.SyncArgs | src/life_os/agent/nodes/persister.py:60-76 | the Notion call receives the stored tasks and links (or none) and exactly the sleep, exercise, wellness and journal entries that are stored |
| Persister.Persist | src/life_os/agent/nodes/persister.py:17-94 | with no entities only the no-data message is set; otherwise the entities are cleared, the records are kept as structured records, they are saved iff there are any, Notion is called iff a synced field is stored, and the reply is the reply lines joined by newlines, so it starts with the summary header |
| Persister.ReminderRecords | src/life_os/agent/nodes/persister.py:41-45 | a lone reminder text becomes one record with its text under `value` |
| Persister.ReminderSavedNotSynced | src/life_os/agent/nodes/persister.py:60-85 | a lone reminder is saved but not sent to Notion |
| Persister.TasksSyncedNotSaved | src/life_os/agent/nodes/persister.py:28-85 | lone tasks go to Notion, are not saved, and are cleared |
| Graph.ShouldAbort | src/life_os/agent/graph.py:17-20 | the route is the end iff the abort flag is set, and extraction otherwise |
| Graph.RouteIntent | src/life_os/agent/graph.py:23-29 | query goes to the query node, other to chit-chat, and anything else (including no intent) to extraction |
| Graph.CheckMissingFields | src/life_os/agent/graph.py:32-39 | the turn stops to ask iff fields are missing and fewer than three questions were counted; otherwise it persists |
| Graph.Next | src/life_os/agent/graph.py:83-94 | each node has the successors the edge table gives it: abort ends the turn; the query and other intents go to their nodes and every other intent to extraction; extraction goes to the output guard iff fields are missing below the ceiling, to the persister otherwise |
| Graph.NextLowersRank | src/life_os/agent/graph.py:83-94 | every edge moves closer to the end, so a turn always finishes |
| Graph.Chitchat | src/life_os/agent/graph.py:65-66 | the chit-chat reply is never empty; an empty completion gets the fixed prompt |
| Graph.Apply | src/life_os/agent/graph.py:73-80 | only the persister saves or syncs, and it clears the entities; only extraction and persistence touch the entities; no node changes the clarification count |
| Graph.RunFrom | src/life_os/agent/graph.py:83-94 | a walk from any node leaves well-formed entities |
| Graph.RunShape | src/life_os/agent/graph.py:83-94 | a walk starts at its node, ends at the end node, reaches it exactly once, and is no longer than the node's distance to the end |
| Graph.PersistOnlyAfterExtract | src/life_os/agent/graph.py:90-93 | the persister only ever follows extraction |
| Graph.RunKeeps | src/life_os/agent/graph.py:83-94 | a walk keeps entities well formed and the count unchanged; a walk without extraction or persistence keeps the entities; persistence clears them; saving and syncing happen only through the persister |
| Graph.AbortedTurn | src/life_os/agent/graph.py:84 | an aborted input goes straight to the end, leaving the guard's state |
| Graph.FromGuardOutput | src/life_os/agent/graph.py:94 | the output guard is followed by the end |
| Graph.Classified | src/life_os/agent/nodes/classifier.py:59 | classification changes neither the entities nor the count |
| Graph.GuardedThenClassified | src/life_os/agent/graph.py:84-87 | a passing input goes to the classifier, which only records the intent |
| Graph.ReplyPath | src/life_os/agent/graph.py:85-89 | from the classifier, a query or chit-chat intent passes through its node and the output guard to the end |
| Graph.QueryTurnPath | src/life_os/agent/graph.py:83-94 | a passing query message visits guard, classifier, query, output guard, end |
| Graph.ChitchatTurnPath | src/life_os/agent/graph.py:83-94 | a passing "other" message visits guard, classifier, chit-chat, output guard, end |
| Graph.AfterExtraction | src/life_os/agent/graph.py:90-94 | after extraction the walk is persist, output guard, end, or only output guard, end, as `check_missing_fields` decides |
| Graph.ClassifiedToExtract | src/life_os/agent/graph.py:85-87 | any intent other than query or other leads to extraction |
| Graph.ExtractPath | src/life_os/agent/graph.py:85-94 | from the classifier, a logging intent visits extraction and then the tail that the extraction result decides |
| Graph.LogTurnPath | src/life_os/agent/graph.py:83-94 | a passing logging message visits guard, classifier, extraction, and then that tail |
| Graph.InjectionTurn | src/life_os/agent/graph.py:84 | an injection message ends the turn with the refusal |
| Graph.CrisisTurn | src/life_os/agent/graph.py:84 | a crisis message ends the turn with the crisis resources |
| Graph.AskPath | src/life_os/agent/graph.py:32-39 | below the ceiling, a logging message that leaves fields missing skips the persister |
| Graph.ClarificationNeverCapped | src/life_os/agent/graph.py:32-39 | a whole turn with fields still missing asks again and does not persist |
| Graph.Turns | src/life_os/telegram/bot.py:51-57 | consecutive messages on one thread keep well-formed entities, and the clarification count never moves |
| Graph.CountStaysBelowCeiling | src/life_os/agent/graph.py:34-39 | a count below three stays below three however many turns pass, so the persist-anyway branch is never reached through the count |
| Graph.PersistedTurnResets | src/life_os/agent/nodes/persister.py:89-93 | after a persisting turn the next merge starts from nothing |
| Metrics.ValuesMatch | src/life_os/evals/metrics.py:80-107 | two numbers match iff the prediction is within the relative tolerance of a non-zero expectation (`|p - e| <= tol * |e|`), and an expected zero is matched only by zero; a dictionary match needs every expected key; a list match needs equal lengths |
| Metrics.MatchReflexive | src/life_os/evals/metrics.py:80-107 | every value matches itself under a non-negative tolerance |
| Metrics.ExtraKeysIgnored | src/life_os/evals/metrics.py:88-92 | extra predicted keys do not spoil a dictionary match |
| Metrics.MissingKeyFails | src/life_os/evals/metrics.py:88-92 | a missing expected key fails a dictionary match |
| Metrics.FallbackCompare | src/life_os/evals/metrics.py:101-107 | values that are neither both numbers, both dictionaries nor both lists match iff their lower-cased, stripped texts agree |
| Metrics.EnumMatchesItsValue | src/life_os/evals/metrics.py:101-107 | an enum member matches the string of its value |
| Metrics.PaddingIgnored | src/life_os/evals/metrics.py:107 | leading whitespace does not spoil a string match |
| Metrics.Delta | src/life_os/evals/metrics.py:47-66 | a key counts once towards the predicted keys iff it has a predicted value, once towards the expected keys iff it has an expected value, and is a true positive iff both are present and match |
| Metrics.AddMatched | src/life_os/evals/metrics.py:59-62 | visiting one more key adds its true positive to the matched keys |
| Metrics.AddPredicted | src/life_os/evals/metrics.py:52-65 | visiting one more key adds its true and false positives to the predicted keys |
| Metrics.AddExpected | src/life_os/evals/metrics.py:55-65 | visiting one more key adds its true positive and false negative to the expected keys |
| Metrics.RecordStep | src/life_os/evals/metrics.py:50-66 | recording one key keeps the accuracy map at 1 on matched keys, 0 on the other present keys, and absent on keys missing on both sides |
| Metrics.CountedEmpty | src/life_os/evals/metrics.py:40-43 | the counts start at zero with no accuracies |
| Metrics.CountStep | src/life_os/evals/metrics.py:46-66 | one loop iteration keeps the counts and accuracies right for the keys visited |
| Metrics.Visit | src/life_os/evals/metrics.py:47-66 | the loop body adds one key's counts and accuracy |
| Metrics.SlotFillCounts | src/life_os/evals/metrics.py:40-66 | true positives are the matched keys; true plus false positives the predicted keys; true positives plus false negatives the expected keys; accuracy is 1 exactly on matched keys |
| Metrics.Ratio | src/life_os/evals/metrics.py:68-69 | a count ratio lies in [0, 1], is 0 with no denominator, positive with a positive numerator, and 1 iff the two counts agree |
| Metrics.F1 | src/life_os/evals/metrics.py:70 | F1 lies in [0, 1], is 0 when precision and recall are both 0, and is 1 when both are 1 |
| Metrics.SlotFillF1 | src/life_os/evals/metrics.py:25-77 | precision is matched over predicted keys and recall matched over expected keys, both in [0, 1]; F1 is their harmonic mean; accuracy is 1 exactly on matched keys |
| Metrics.PerfectPrediction | src/life_os/evals/metrics.py:45-70 | predicting the expected values matches every expected key and nothing else, giving precision and recall 1 |

## Left out

- The language model, the classifier, the query node and the chit-chat completion are
  replaced by the `Oracle` fields `intent`, `queryReply`, `chitchatReply` and `extraction`.
  The prompts and `_call_llm` are not modelled.
- The Notion sync (`append_notion_blocks`) and the SQLite save (`save_records`) are not
  performed. `Persister.Persist` returns their arguments, and the list of failed syncs is an
  oracle input.
- `date.today()` and the chat-history text given to the language model are not modelled,
  because they only feed the prompt.
- Floating point is not modelled:
  - `duration_hours` is kept as whole minutes, so its rounding to two places is left out;
  - `distance_km` and the metric scores are reals;
  - the rounding of precision, recall and F1 to three places is left out.
- `str()` on a stored value and on a metric value is a parameter (`show`, `render`): Python's
  text for dates, enums, lists and floats is not modelled.
- Case folding, whitespace and `\w` are ASCII only. Python's Unicode `lower`, `title` and word
  characters are not modelled.
- The `add_messages` reducer on `chat_history` is modelled as appending the user message,
  not as LangChain message objects with ids.
- The LangGraph runtime is modelled as the walk `Graph.RunFrom`, with state updates applied
  directly. The checkpointer is modelled as `Graph.Turns` passing the state to the next
  message. Concurrency, retries and `MemorySaver` itself are not modelled.
- Dictionary iteration in the persister follows the schema order of the fields. The
  extractor builds `entities` in that order.
- `settings.max_clarification_turns` is the constant 3. The rest of the settings module is
  not modelled.
- Logging (`structlog`) is not modelled.
- Extractor.Merge: requires the stored entities to be well formed, meaning each field holds
  a value of its own kind. The source never stores anything else. What pydantic would do
  with a mismatched value is not modelled.
- Extractor.Combine: its contract states only that the kind is kept. The per-kind rules are
  stated on the merge: `MergeOverlaysSleep`, `MergeOverlaysWellness`, `MergeExerciseLists`,
  `MergeTaskLists`, `MergeLinkLists`, and `MergeTakesNew` for texts and timestamps.
- Graph.RunFrom: its only contract is well-formedness. Trace shape and state effects are
  stated separately by `Graph.RunShape`, `Graph.RunKeeps` and the path lemmas.
- Graph.Turns: the user id of each message is not replaced. It is the same on one thread.
- Metrics.SlotFillF1: states the unrounded values. The source rounds them to three decimal
  places.
- The Telegram bot, the scheduled jobs, the query node's database reads, the evaluation
  runner and the store modules are not part of this model.
