# Workout-plan backend: a verified model

This project models the core of an Express backend that asks a generative model for a weekly workout plan. Three steps make up that core:

- **Prompt building.** `promptBuilder.js` turns the target muscle, the daily duration and the exercise catalogue into a prompt. A second builder adds days per week, experience level and an equipment filter.
- **The model call.** `geminiService.js` sends the prompt. It then cleans the answer: Markdown code fences are removed with a global regular expression, whitespace is trimmed, and the rest goes to `JSON.parse`.
- **The controller.** `workoutController.js` validates the request and fetches the catalogue. Next it calls the model and collects the distinct exercise ids of the plan. It looks those ids up in the database and joins every assignment of the plan with its catalogue record. Finally it turns each failure into an HTTP status with an error message. A second handler returns one exercise by id.

The model is split into these modules:

- `Wrappers`: `Option` (a JavaScript `undefined`/`null`) and `Result` (a value or a thrown error with its message).
- `JsStrings`: the JavaScript string operations the core uses.
  - `join` and `split`.
  - `trim`, with ECMAScript's whitespace set.
  - Decimal rendering of integers in template literals, and a parser that reads the rendering back.
  - A substring predicate.
- `Plans`: the records. A catalogue exercise, an assignment, a day, a plan as the model returns it, and the enriched plan.
- `PromptBuilder`: both prompt builders.
- `GeminiService`: the fence-stripping scan, response parsing, and `generateWorkoutPlan`.
- `ExerciseStore`: what a lookup by ids returns, stated relative to a catalogue as a specification. The full catalogue listing enters the controller as an unconstrained `Result` value.
- `WorkoutController`: the handlers.
  - The id-collecting loop (`extractExerciseIds`) is a method with nested loops, proved against `Dedup(PlanIds(...))`.
  - The map-filling loop of `enrichPlanWithDetails` is a method, proved against `DetailsMap`.
  - `generateWorkout` is a method, proved equal to the response function `GenerateOutcome`.

The outside world enters as parameters:

- The database listing is a `Result` value.
- The lookup by ids is a function from ids to a `Result`.
- The model call is a function from prompt to a `Result`.
- `JSON.parse` is a function from text to an `Option`.
- The timestamp is a string.

Each service is a single function parameter, so every model function depends only on its arguments. None of the modelled operations changes its inputs.

A failed model call and an answer that does not parse cannot be told apart by the caller. `parseGeminiResponse` throws `Invalid response format from AI`, but the surrounding `catch` in `generateWorkoutPlan` (src/services/geminiService.js:23-26) replaces every error with `Failed to generate workout plan`. `GeminiService.CallAndParseFailuresAgree` states that both failures end in the same error, and `WorkoutController.ThrownErrorsSentAs500` states that the handler sends the generic message as `details` in both cases.

## Model

| member | source | states |
|---|---|---|
| JsStrings.Join | src/utils/promptBuilder.js:13 | `Array.prototype.join`, as used at lines 13, 87 and 94: the parts in order with the separator between neighbours; `SplitJoin`, `JoinSplit` and `JoinEmpty` state its properties |
| JsStrings.IndexOf | src/utils/promptBuilder.js:13 | a specification helper, not code the source has: the index of the first occurrence of the separator, or the length when there is none; it defines the line splitting that reads back the join |
| JsStrings.SplitJoin | src/utils/promptBuilder.js:11-13 | joining parts that contain no separator and splitting the result back at that separator gives back exactly the parts |
| JsStrings.JoinSplit | src/utils/promptBuilder.js:13 | splitting at a character and joining with that character gives back the original string |
| JsStrings.JoinEmpty | src/utils/promptBuilder.js:94 | with a non-empty separator, a join is empty exactly for no parts or one empty part |
| JsStrings.Trim | src/services/geminiService.js:32 | the result has no whitespace at either end, and it is the part of the input between a whitespace-only prefix and a whitespace-only suffix |
| JsStrings.TrimIdentity | src/services/geminiService.js:32 | trimming a string already without surrounding whitespace leaves it unchanged |
| JsStrings.TrimIdempotent | src/services/geminiService.js:32 | trimming twice is the same as trimming once |
| JsStrings.IntToString | src/utils/promptBuilder.js:19 | number interpolation in the templates, at lines 19, 54, 90, 93 and 100: a minus sign before the decimal digits of a negative number; `ParseIntToString` states that the rendering reads back as the integer |
| JsStrings.NatToString | src/utils/promptBuilder.js:19 | a natural number renders as a non-empty run of decimal digits with no leading zero |
| JsStrings.ParseNatToString | src/utils/promptBuilder.js:19 | reading a rendered natural number back gives the number |
| JsStrings.ParseIntToString | src/utils/promptBuilder.js:54 | reading a rendered integer, negative ones included, back gives the integer |
| JsStrings.ContainsThree | src/utils/promptBuilder.js:15-59 | any three consecutive pieces of a template, joined together, occur in the assembled text |
| PromptBuilder.TargetLabel | src/utils/promptBuilder.js:12 | the muscle shown for an exercise: its target, or its body part when the target is empty |
| PromptBuilder.ExerciseLine | src/utils/promptBuilder.js:12 | the line for one exercise: its id, its quoted name and the muscle it targets |
| PromptBuilder.ExerciseLines | src/utils/promptBuilder.js:11-12 | one line per catalogue exercise |
| PromptBuilder.ExercisesList | src/utils/promptBuilder.js:11-13 | the `exercisesList` text, the exercise lines joined by newlines; its content is stated by `ExercisesListLines` and `ExercisesListEmpty` |
| PromptBuilder.ExercisesListLines | src/utils/promptBuilder.js:11-13 | for exercises with single-line fields, the list splits at newlines into exactly one line per exercise, in catalogue order |
| PromptBuilder.ExercisesListEmpty | src/utils/promptBuilder.js:11-13 | the exercise list is empty exactly when the catalogue is |
| PromptBuilder.BuildWorkoutPrompt | src/utils/promptBuilder.js:9-59 | the weekly prompt: the template text with the target muscle, the duration, the exercise list and the weekly total put in; its content is stated by the three lemmas below |
| PromptBuilder.WorkoutPromptNamesRequest | src/utils/promptBuilder.js:15-19 | the weekly prompt carries the target muscle under its label and the daily duration followed by "minutes per day" |
| PromptBuilder.WorkoutPromptListsExercises | src/utils/promptBuilder.js:11-13 | the weekly prompt carries the full exercise list between the exercise heading and the instructions heading |
| PromptBuilder.WorkoutPromptWeeklyMinutes | src/utils/promptBuilder.js:54 | the prompt's JSON skeleton has a weekly total, just before the target-muscle key, that reads back as seven times the daily duration |
| PromptBuilder.ResolveOptions | src/utils/promptBuilder.js:68-75 | absent options take the defaults of 7 days, "beginner" and no equipment; a supplied option is kept as given |
| PromptBuilder.FilterByEquipment | src/utils/promptBuilder.js:80-82 | the equipment filter, keeping an exercise when `KeepsExercise` holds, that is when its equipment is listed or is "body weight" (line 81); its properties are stated by the two lemmas below |
| PromptBuilder.FilterIsSubsequence | src/utils/promptBuilder.js:80-82 | the equipment filter keeps exercises in their original order |
| PromptBuilder.FilterMultiplicity | src/utils/promptBuilder.js:80-82 | an exercise survives the filter, as often as it occurs, exactly when its equipment is listed or is "body weight" |
| PromptBuilder.SelectExercises | src/utils/promptBuilder.js:78-83 | with no equipment the catalogue is used unchanged; otherwise the result is the order-preserving filter that keeps listed or body-weight equipment |
| PromptBuilder.EquipmentLine | src/utils/promptBuilder.js:94 | the equipment line is never empty: an empty join falls back to "body weight only" |
| PromptBuilder.EquipmentLineFallback | src/utils/promptBuilder.js:94 | the equipment line reads "body weight only" exactly when the list is empty or is one empty name; otherwise it shows the names joined by ", " |
| PromptBuilder.CustomExerciseLine | src/utils/promptBuilder.js:86 | the line for one exercise in the customised list: its id, its quoted name and its equipment |
| PromptBuilder.CustomExerciseLines | src/utils/promptBuilder.js:85-86 | one line per exercise in the customised list |
| PromptBuilder.CustomExercisesList | src/utils/promptBuilder.js:85-87 | the customised exercise list: one line per exercise with its id, quoted name and equipment, joined by newlines |
| PromptBuilder.CustomExercisesListLines | src/utils/promptBuilder.js:85-87 | for exercises with single-line fields, the customised list splits at newlines into exactly one line per exercise, in order |
| PromptBuilder.BuildCustomPrompt | src/utils/promptBuilder.js:67-126 | the customised prompt, with defaults applied and the exercises filtered by equipment; its content is stated by the lemmas below |
| PromptBuilder.CustomPromptDefaults | src/utils/promptBuilder.js:72-74 | leaving all three options out builds the same prompt as passing 7, "beginner" and an empty list |
| PromptBuilder.CustomPromptBodyWeightOnly | src/utils/promptBuilder.js:94-96 | with no equipment given, the prompt says "AVAILABLE EQUIPMENT: body weight only" |
| PromptBuilder.CustomPromptListsExercises | src/utils/promptBuilder.js:96-99 | the customised prompt has the equipment-filtered exercise list between its exercise heading and its instructions |
| PromptBuilder.CustomPromptNamesDays | src/utils/promptBuilder.js:90-100 | days per week goes in verbatim in the opening sentence and in the first instruction |
| PromptBuilder.CustomPromptNamesLevel | src/utils/promptBuilder.js:90-105 | the experience level goes in verbatim in the opening sentence and in the fifth instruction |
| PromptBuilder.CustomPromptNamesRequest | src/utils/promptBuilder.js:92-93 | the customised prompt carries the target muscle and the daily duration under their labels |
| GeminiService.FenceMatch | src/services/geminiService.js:32 | the regular expression matches at a position exactly when three backticks, or a newline and three backticks, begin there |
| GeminiService.StripFences | src/services/geminiService.js:32 | removing fences never lengthens the text and leaves text without backticks unchanged |
| GeminiService.CleanResponse | src/services/geminiService.js:32 | cleaned text has no surrounding whitespace, and text without backticks is only trimmed |
| GeminiService.StripClosingFence | src/services/geminiService.js:32 | a closing fence on its own line is removed together with the newline before it |
| GeminiService.FencedBlockCleans | src/services/geminiService.js:32 | a body wrapped in a "```json" block comes out as the body, trimmed |
| GeminiService.NewlineBeforeOpeningFence | src/services/geminiService.js:32 | a newline before the opening fence is taken by the second alternative, so the word "json" remains |
| GeminiService.NewlineBeforeFencedBlock | src/services/geminiService.js:32 | when the block is preceded by a newline, the cleaned text starts with "json" and is no longer the body |
| GeminiService.ParseGeminiResponse | src/services/geminiService.js:29-38 | parsing succeeds exactly when the cleaned text parses, with the parsed value; otherwise it fails with "Invalid response format from AI" |
| GeminiService.FencedParsesAsUnwrapped | src/services/geminiService.js:29-38 | a fenced answer parses to the same outcome as its unfenced body |
| GeminiService.GenerateWorkoutPlan | src/services/geminiService.js:12-27 | the plan is produced exactly when the model answers the weekly prompt and the answer parses, and every failure carries "Failed to generate workout plan" |
| GeminiService.CallAndParseFailuresAgree | src/services/geminiService.js:16-26 | a failed model call and an answer that does not parse end in the same error, "Failed to generate workout plan" |
| ExerciseStore.SelectByIds | src/services/databaseService.js:19-36 | the selected rows are the catalogue rows whose id is among those requested |
| ExerciseStore.LookupRows | src/services/databaseService.js:19-36 | any row order or repetition the query returns still holds exactly the catalogue rows with a requested id |
| WorkoutController.PlanIdsReferenced | src/controllers/workoutController.js:110-114 | the walk over days and exercises meets exactly the ids that some exercise of some day carries |
| WorkoutController.FirstIndex | src/controllers/workoutController.js:115 | a specification helper, not code the source has: the position of the first occurrence, and the length exactly when the element is absent; it is used to state the insertion order that `Array.from` gives |
| WorkoutController.Dedup | src/controllers/workoutController.js:109-115 | the ids the `Set` keeps, in insertion order; its properties are stated by the two lemmas below |
| WorkoutController.DedupElements | src/controllers/workoutController.js:109-115 | the collected ids have no repeats and include every id that occurs |
| WorkoutController.DedupOrder | src/controllers/workoutController.js:115 | the collected ids are in the order of their first occurrence |
| WorkoutController.ExtractExerciseIds | src/controllers/workoutController.js:108-116 | the loop returns each referenced id exactly once, ordered by first occurrence in the plan |
| WorkoutController.DetailsMap | src/controllers/workoutController.js:119-122 | the id map as a value, each record stored under its id and a later record replacing an earlier one; characterised by `DetailsMapIsLastMatch` |
| WorkoutController.DetailsMapIsLastMatch | src/controllers/workoutController.js:119-122 | the id map answers each id with the last record carrying it, and has no entry when none does |
| WorkoutController.LastMatchSpec | src/controllers/workoutController.js:121 | there is no match exactly when no record has the id; otherwise the match is the record at the last index with that id |
| WorkoutController.BuildDetailsMap | src/controllers/workoutController.js:119-122 | the loop's map has the records' ids as its keys and answers each id with the last record carrying it |
| WorkoutController.EnrichWithMap | src/controllers/workoutController.js:124-133 | the plan rebuilt, `EnrichDay` for each day (lines 126-132) and `EnrichAssignment` for each assignment (lines 128-131), giving each assignment the map's record for its id or null through `Lookup` (line 130); characterised through `Enrich` |
| WorkoutController.Enrich | src/controllers/workoutController.js:124-133 | the enriched plan keeps every plan-level and day-level field and every assignment in order, and pairs each assignment with the last record for its id or with null |
| WorkoutController.EnrichPlanWithDetails | src/controllers/workoutController.js:118-134 | the loop-and-map implementation gives that enrichment |
| WorkoutController.EnrichFromCatalogue | src/controllers/workoutController.js:57-75 | when the records come from looking up the plan's ids in a catalogue with unique ids, each assignment gets the catalogue's record for its id, or null when there is none |
| WorkoutController.ValidateGenerateRequest | src/controllers/workoutController.js:14-27 | a request is accepted exactly when the target is a non-empty string and the duration lies between 5 and 120 minutes; a falsy field gets the missing-fields message and anything else the range message |
| WorkoutController.ZeroDurationIsMissing | src/controllers/workoutController.js:17-21 | a duration of 0 is reported as a missing field, not as out of range |
| WorkoutController.GenerateOutcome | src/controllers/workoutController.js:10-106 | the response of `generateWorkout` as a function of the request and of what each service returns; its properties are stated by the lemmas below |
| WorkoutController.GenerateWorkout | src/controllers/workoutController.js:10-106 | the handler's steps give the response that `GenerateOutcome` defines |
| WorkoutController.BadRequestBeforeServices | src/controllers/workoutController.js:16-27 | the status is 400 exactly when validation rejects the request, and then the response does not depend on any service |
| WorkoutController.EmptyCatalogueBeforeModel | src/controllers/workoutController.js:38-40 | a valid request meeting an empty catalogue gets a 500 with "No exercises found in database", whatever the model would do |
| WorkoutController.GeneratedExactlyWhenAllSucceed | src/controllers/workoutController.js:29-105 | a plan is sent exactly when the catalogue, the model call, the parse and the lookup all succeed; it is the enrichment of the parsed plan with the looked-up rows, and any other outcome is a 400 or a 500 |
| WorkoutController.ThrownErrorsSentAs500 | src/controllers/workoutController.js:94-105 | after validation, a failed catalogue listing, model call or parse, or lookup is sent as a 500 with "Failed to generate workout plan" and the thrown message as details; the only other 500 is the empty catalogue |
| WorkoutController.GetExerciseById | src/controllers/workoutController.js:136-156 | 404 with "Exercise not found" exactly when the lookup returns no rows, the first row when it returns some, and a 500 with the error's message when it throws |
| WorkoutController.GetExerciseFromCatalogue | src/controllers/workoutController.js:141-147 | in a catalogue with unique ids, the exercise is found exactly when the catalogue has that id, and the record sent is the catalogue's |

## Left out

- Network I/O and the Gemini SDK. The model call is a parameter, `model`, so which model is used, the API key and every transport error are outside the model.
- `JSON.parse` is a parameter, `parse`, that either gives a typed `Plan` or fails. Inside `extractExerciseIds` a `TypeError` is thrown for any of these: an answer that parses to `null` (at `plan.plan`, src/controllers/workoutController.js:110), a missing or non-array `plan` or `exercises` field, a `null` day (at `day.exercises`, line 111), or a `null` assignment (at `ex.exercise_id`, line 112). Each of these ends in a 500 that is not modelled. Other parsed answers that the typed `Plan` cannot represent go through to a 200 in the source, and the model does not cover them: an answer without `total_weekly_minutes`, `target_muscle`, `day_name` or `exercise_id`, or with fields of other types, where an `undefined` id is looked up, finds no row and gets `details: null`. Extra JSON keys of the answer, which the spread operators copy into the response, are not modelled either.
- An assignment that already has a `details` key: the model's record type has no such field, so the overwrite by the spread is not represented.
- The PostgreSQL queries. `getAllExercises` is a `Result` value. `getExercisesByIds` is a lookup function, specified against a catalogue by `ExerciseStore.IsLookupResult`. SQL, `NULL` columns and the connection pool are left out. `getExercisesByTarget` is not part of this model.
- Asynchrony, timing with `performance.now`, and console logging: none of them affects a response.
- The timestamp from `new Date().toISOString()` is the parameter `now`.
- JavaScript coercions outside the typed model. These include a duration sent as a string or `NaN`, a non-string target muscle, and numeric exercise ids used as object keys. Also not modelled: ids such as `toString` that look up inherited `Object.prototype` members in the plain-object map.
- JsStrings.IntToString: renders every integer as exact decimal digits. JavaScript's number rendering, with an exponent from 1e21 upwards and lost exactness above 2^53, is not modelled. The handler passes only durations from 5 to 120, but `buildCustomPrompt` takes `daysPerWeek` unchecked.
- Express routing, the API-key middleware, and the `/exercises` listing route. The model starts at the handler, with the request body's two fields.
- WorkoutController.ValidateGenerateRequest: the duration is an integer, so fractional durations such as 7.5 are not modelled.
- GeminiService.CleanResponse: its contract states that the output is trimmed and that text without backticks is only trimmed. Full fence removal is stated only for the shapes in `FencedBlockCleans`, `StripClosingFence` and `NewlineBeforeFencedBlock`.
