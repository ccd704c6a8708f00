/** Rendering of the text prompts sent to the generative model: one line per exercise,
    the weekly-plan template, and the customisable template with its equipment filter. */
module PromptBuilder {

  import opened Wrappers
  import opened JsStrings
  import opened Plans

  // ---------------------------------------------------------------------------
  // Exercise lines

  /** `ex.target || ex.bodypart`: the target muscle, or the body part when the target is empty. */
  function TargetLabel(ex: Exercise): string {
    if ex.target != "" then ex.target else ex.bodypart
  }

  /** The line for one exercise in the weekly-plan prompt. */
  function ExerciseLine(ex: Exercise): string {
    "- ID: " + ex.id + ", Name: \"" + ex.name + "\" (Targets: " + TargetLabel(ex) + ")"
  }

  function ExerciseLines(exercises: seq<Exercise>): (lines: seq<string>)
    ensures |lines| == |exercises|
  {
    seq(|exercises|, k requires 0 <= k < |exercises| => ExerciseLine(exercises[k]))
  }

  /** `exercises.map(...).join('\n')`. */
  function ExercisesList(exercises: seq<Exercise>): string {
    Join(ExerciseLines(exercises), "\n")
  }

  /** No field that goes into a line holds a line break. */
  predicate SingleLineFields(ex: Exercise) {
    '\n' !in ex.id && '\n' !in ex.name && '\n' !in TargetLabel(ex)
  }

  /** Read back line by line, a non-empty list has exactly one line per exercise, in input
      order: the k-th line is the k-th exercise's, and there is no trailing newline. */
  lemma ExercisesListLines(exercises: seq<Exercise>)
    requires |exercises| > 0
    requires forall k :: 0 <= k < |exercises| ==> SingleLineFields(exercises[k])
    ensures |Split(ExercisesList(exercises), '\n')| == |exercises|
    ensures forall k :: 0 <= k < |exercises| ==>
      Split(ExercisesList(exercises), '\n')[k] == ExerciseLine(exercises[k])
  {
    var lines := ExerciseLines(exercises);
    forall k | 0 <= k < |lines| ensures '\n' !in lines[k] {
      var ex := exercises[k];
      assert lines[k] == "- ID: " + ex.id + ", Name: \"" + ex.name + "\" (Targets: " + TargetLabel(ex) + ")";
    }
    SplitJoin(lines, '\n');
  }

  /** The list is empty exactly when there are no exercises (every line is non-empty). */
  lemma ExercisesListEmpty(exercises: seq<Exercise>)
    ensures ExercisesList(exercises) == "" <==> exercises == []
  {
    JoinEmpty(ExerciseLines(exercises), "\n");
    if |exercises| == 1 {
      assert ExerciseLines(exercises)[0] == ExerciseLine(exercises[0]);
    }
  }

  // ---------------------------------------------------------------------------
  // Template text

  /** Opening of the weekly-plan prompt, up to the first embedded value. */
  const WorkoutIntro: string := "\nYou are a professional fitness trainer. Create a 7-day workout plan based on these requirements:\n\n"
  const TargetLabelText: string := "TARGET MUSCLE: "
  const DurationLabelText: string := "\nDAILY WORKOUT DURATION: "
  const MinutesPerDay: string := " minutes per day"
  const ListHeading: string := "\n\nAVAILABLE EXERCISES (use ONLY these exercise IDs and names):\n"
  /** The numbered instructions and the JSON answer format, up to the weekly total. */
  const InstructionsHeading: string := "\n\nINSTRUCTIONS:\n"
  const WorkoutInstructions: string :=
    "1. Create a 7-day workout plan (Monday to Sunday)\n"
    + "2. Each day must include 4-6 exercises\n"
    + "3. ONLY use exercises from the provided list\n"
    + "4. For each exercise, specify:\n"
    + "   - exercise_id (from the list)\n"
    + "   - exercise_name (from the list)\n"
    + "   - sets (number of sets, 3-5)\n"
    + "   - reps (string, either number of reps like \"12-15\" or duration like \"30 seconds\")\n"
    + "   - rest_seconds (number, 30-90 seconds)\n"
    + "5. Ensure variety across the week\n"
    + "6. Include progressive overload (increase intensity through the week)\n"
    + "\n"
    + "RESPONSE FORMAT (STRICT JSON ONLY, no other text):\n"
    + "{\n"
    + "  \"plan\": [\n"
    + "    {\n"
    + "      \"day\": 1,\n"
    + "      \"day_name\": \"Monday\",\n"
    + "      \"exercises\": [\n"
    + "        {\n"
    + "          \"exercise_id\": \"0001\",\n"
    + "          \"exercise_name\": \"3/4 sit-up\",\n"
    + "          \"sets\": 3,\n"
    + "          \"reps\": \"15\",\n"
    + "          \"rest_seconds\": 45\n"
    + "        }\n"
    + "      ]\n"
    + "    }\n"
    + "  ],\n"
  const WeeklyMinutesLabel: string := "  \"total_weekly_minutes\": "
  const TargetMuscleKey: string := ",\n  \"target_muscle\": \""
  const WorkoutClosing: string := "\"\n}\n\nReturn ONLY the JSON object, no other text.\n"

  const CustomIntro: string := "\nYou are a professional fitness trainer. Create a "
  const CustomPlanFor: string := "-day workout plan for a "
  const CustomLevelPerson: string := " level person.\n\n"
  const CustomEquipmentLabel: string := "\nAVAILABLE EQUIPMENT: "
  const CustomListHeading: string := "\n\nAVAILABLE EXERCISES (use ONLY these):\n"
  const CustomInstructionsHead: string := "\n\nINSTRUCTIONS:\n1. Create a "
  const CustomInstructions: string :=
    "-day workout plan\n"
    + "2. Each day must include 4-6 exercises\n"
    + "3. ONLY use exercises from the provided list\n"
    + "4. For each exercise, specify:\n"
    + "   - exercise_id, exercise_name, sets, reps, rest_seconds\n"
    + "5. Ensure variety and appropriate intensity for "
  const CustomFormat: string :=
    " level\n"
    + "\n"
    + "RESPONSE FORMAT (STRICT JSON ONLY):\n"
    + "{\n"
    + "  \"plan\": [\n"
    + "    {\n"
    + "      \"day\": 1,\n"
    + "      \"day_name\": \"Monday\",\n"
    + "      \"exercises\": [\n"
    + "        {\n"
    + "          \"exercise_id\": \"0001\",\n"
    + "          \"exercise_name\": \"3/4 sit-up\",\n"
    + "          \"sets\": 3,\n"
    + "          \"reps\": \"15\",\n"
    + "          \"rest_seconds\": 45\n"
    + "        }\n"
    + "      ]\n"
    + "    }\n"
    + "  ]\n"
    + "}\n"

  // ---------------------------------------------------------------------------
  // buildWorkoutPrompt

  /** The pieces of the prompt asking for a seven-day plan for `targetMuscle`,
      `durationMinutes` a day, built only from `exercises`. */
  function WorkoutPieces(targetMuscle: string, durationMinutes: int, exercises: seq<Exercise>): seq<string> {
    [ WorkoutIntro,
      TargetLabelText, targetMuscle,
      DurationLabelText, IntToString(durationMinutes), MinutesPerDay,
      ListHeading, ExercisesList(exercises), InstructionsHeading,
      WorkoutInstructions,
      WeeklyMinutesLabel, IntToString(durationMinutes * 7),
      TargetMuscleKey, targetMuscle,
      WorkoutClosing ]
  }

  function BuildWorkoutPrompt(targetMuscle: string, durationMinutes: int, exercises: seq<Exercise>): string {
    Concat(WorkoutPieces(targetMuscle, durationMinutes, exercises))
  }

  /** The prompt names the target muscle and the daily duration verbatim. */
  lemma WorkoutPromptNamesRequest(targetMuscle: string, durationMinutes: int, exercises: seq<Exercise>)
    ensures var p := BuildWorkoutPrompt(targetMuscle, durationMinutes, exercises);
      && Contains(p, TargetLabelText + targetMuscle + DurationLabelText)
      && Contains(p, DurationLabelText + IntToString(durationMinutes) + MinutesPerDay)
      && Contains(p, TargetMuscleKey + targetMuscle + WorkoutClosing)
  {
    var pieces := WorkoutPieces(targetMuscle, durationMinutes, exercises);
    ContainsThree(pieces, 1);
    ContainsThree(pieces, 3);
    ContainsThree(pieces, 12);
  }

  /** The prompt lists exactly the supplied exercises between their heading and the instructions. */
  lemma WorkoutPromptListsExercises(targetMuscle: string, durationMinutes: int, exercises: seq<Exercise>)
    ensures Contains(BuildWorkoutPrompt(targetMuscle, durationMinutes, exercises),
      ListHeading + ExercisesList(exercises) + InstructionsHeading)
  {
    ContainsThree(WorkoutPieces(targetMuscle, durationMinutes, exercises), 6);
  }

  /** The prompt gives `total_weekly_minutes` as seven times the daily duration, written so
      that it reads back as that number. */
  lemma WorkoutPromptWeeklyMinutes(targetMuscle: string, durationMinutes: int, exercises: seq<Exercise>)
    ensures var w := IntToString(durationMinutes * 7);
      && Contains(BuildWorkoutPrompt(targetMuscle, durationMinutes, exercises), WeeklyMinutesLabel + w + TargetMuscleKey)
      && ParseInt(w) == Some(durationMinutes * 7)
  {
    ContainsThree(WorkoutPieces(targetMuscle, durationMinutes, exercises), 10);
    ParseIntToString(durationMinutes * 7);
  }

  // ---------------------------------------------------------------------------
  // buildCustomPrompt

  /** The options object; `None` is a property left `undefined`, which takes its default. */
  datatype CustomOptions = CustomOptions(
    targetMuscle: string,
    durationMinutes: int,
    exercises: seq<Exercise>,
    daysPerWeek: Option<int>,
    experienceLevel: Option<string>,
    equipment: Option<seq<string>>)

  /** The options after destructuring with their defaults. */
  datatype CustomSettings = CustomSettings(daysPerWeek: int, experienceLevel: string, equipment: seq<string>)

  /** Defaults: seven days, `beginner`, no equipment; a supplied value is kept as it is. */
  function ResolveOptions(options: CustomOptions): (s: CustomSettings)
    ensures s.daysPerWeek == if options.daysPerWeek.Some? then options.daysPerWeek.value else 7
    ensures s.experienceLevel == if options.experienceLevel.Some? then options.experienceLevel.value else "beginner"
    ensures s.equipment == if options.equipment.Some? then options.equipment.value else []
  {
    CustomSettings(options.daysPerWeek.GetOr(7), options.experienceLevel.GetOr("beginner"), options.equipment.GetOr([]))
  }

  /** The filter's test: the exercise's equipment is one of the allowed, or it is body weight. */
  predicate KeepsExercise(ex: Exercise, equipment: seq<string>) {
    ex.equipment in equipment || ex.equipment == "body weight"
  }

  /** `exercises.filter(...)` with the equipment test. */
  function FilterByEquipment(exercises: seq<Exercise>, equipment: seq<string>): seq<Exercise>
    decreases |exercises|
  {
    if |exercises| == 0 then []
    else if KeepsExercise(exercises[0], equipment) then [exercises[0]] + FilterByEquipment(exercises[1..], equipment)
    else FilterByEquipment(exercises[1..], equipment)
  }

  /** `r` is `s` with some elements left out and the rest in their order. */
  predicate IsSubsequence<T(==)>(r: seq<T>, s: seq<T>)
    decreases |s|
  {
    if |s| == 0 then r == []
    else (|r| > 0 && r[0] == s[0] && IsSubsequence(r[1..], s[1..])) || IsSubsequence(r, s[1..])
  }

  /** The filter keeps the exercises it keeps in their original order. */
  lemma {:induction false} FilterIsSubsequence(exercises: seq<Exercise>, equipment: seq<string>)
    ensures IsSubsequence(FilterByEquipment(exercises, equipment), exercises)
    decreases |exercises|
  {
    if |exercises| > 0 {
      FilterIsSubsequence(exercises[1..], equipment);
      var r := FilterByEquipment(exercises, equipment);
      if KeepsExercise(exercises[0], equipment) {
        assert r[1..] == FilterByEquipment(exercises[1..], equipment);
      }
    }
  }

  /** An exercise is kept exactly when it passes the test, and as often as it occurs. */
  lemma {:induction false} FilterMultiplicity(exercises: seq<Exercise>, equipment: seq<string>)
    ensures forall ex :: (multiset(FilterByEquipment(exercises, equipment))[ex]
      == if KeepsExercise(ex, equipment) then multiset(exercises)[ex] else 0)
    ensures forall ex :: (ex in FilterByEquipment(exercises, equipment)
      <==> ex in exercises && KeepsExercise(ex, equipment))
    decreases |exercises|
  {
    if |exercises| > 0 {
      var rest := exercises[1..];
      FilterMultiplicity(rest, equipment);
      assert exercises == [exercises[0]] + rest;
      assert multiset(exercises) == multiset([exercises[0]]) + multiset(rest);
    }
  }

  /** `let filteredExercises`: all exercises when the equipment list is empty, otherwise exactly
      those the filter keeps, in order and with their multiplicities. */
  function SelectExercises(exercises: seq<Exercise>, equipment: seq<string>): (r: seq<Exercise>)
    ensures equipment == [] ==> r == exercises
    ensures equipment != [] ==> IsSubsequence(r, exercises)
    ensures equipment != [] ==> forall ex :: ex in r <==> ex in exercises && KeepsExercise(ex, equipment)
    ensures equipment != [] ==> forall ex ::
      multiset(r)[ex] == if KeepsExercise(ex, equipment) then multiset(exercises)[ex] else 0
  {
    FilterIsSubsequence(exercises, equipment);
    FilterMultiplicity(exercises, equipment);
    if |equipment| > 0 then FilterByEquipment(exercises, equipment) else exercises
  }

  /** `equipment.join(', ') || 'body weight only'`. */
  function EquipmentLine(equipment: seq<string>): (line: string)
    ensures line != ""
  {
    var joined := Join(equipment, ", ");
    if joined != "" then joined else "body weight only"
  }

  /** The fallback text appears for no equipment and also for a single empty name;
      any other list is joined with commas. */
  lemma EquipmentLineFallback(equipment: seq<string>)
    ensures EquipmentLine(equipment) ==
      if equipment == [] || equipment == [""] then "body weight only" else Join(equipment, ", ")
  {
    JoinEmpty(equipment, ", ");
  }

  /** The line for one exercise in the customised prompt. */
  function CustomExerciseLine(ex: Exercise): string {
    "- ID: " + ex.id + ", Name: \"" + ex.name + "\" (Equipment: " + ex.equipment + ")"
  }

  function CustomExerciseLines(exercises: seq<Exercise>): (lines: seq<string>)
    ensures |lines| == |exercises|
  {
    seq(|exercises|, k requires 0 <= k < |exercises| => CustomExerciseLine(exercises[k]))
  }

  /** `filteredExercises.map(...).join('\n')`. */
  function CustomExercisesList(exercises: seq<Exercise>): string {
    Join(CustomExerciseLines(exercises), "\n")
  }

  /** No field that goes into a customised line holds a line break. */
  predicate CustomSingleLineFields(ex: Exercise) {
    '\n' !in ex.id && '\n' !in ex.name && '\n' !in ex.equipment
  }

  /** Read back line by line, a non-empty list has exactly one line per exercise, in input
      order, each naming the exercise's equipment. */
  lemma CustomExercisesListLines(exercises: seq<Exercise>)
    requires |exercises| > 0
    requires forall k :: 0 <= k < |exercises| ==> CustomSingleLineFields(exercises[k])
    ensures |Split(CustomExercisesList(exercises), '\n')| == |exercises|
    ensures forall k :: 0 <= k < |exercises| ==>
      Split(CustomExercisesList(exercises), '\n')[k] == CustomExerciseLine(exercises[k])
  {
    var lines := CustomExerciseLines(exercises);
    forall k | 0 <= k < |lines| ensures '\n' !in lines[k] {
      var ex := exercises[k];
      assert lines[k] == "- ID: " + ex.id + ", Name: \"" + ex.name + "\" (Equipment: " + ex.equipment + ")";
    }
    SplitJoin(lines, '\n');
  }

  /** The pieces of the customised prompt: days per week, experience level and available
      equipment taken from the options with their defaults, exercises filtered by equipment. */
  function CustomPieces(options: CustomOptions): seq<string> {
    var s := ResolveOptions(options);
    var days := IntToString(s.daysPerWeek);
    [ CustomIntro, days, CustomPlanFor, s.experienceLevel, CustomLevelPerson,
      TargetLabelText, options.targetMuscle,
      DurationLabelText, IntToString(options.durationMinutes), MinutesPerDay,
      CustomEquipmentLabel, EquipmentLine(s.equipment),
      CustomListHeading, CustomExercisesList(SelectExercises(options.exercises, s.equipment)),
      CustomInstructionsHead, days, CustomInstructions, s.experienceLevel, CustomFormat ]
  }

  function BuildCustomPrompt(options: CustomOptions): string {
    Concat(CustomPieces(options))
  }

  /** Leaving an option out gives the same prompt as passing its default. */
  lemma CustomPromptDefaults(options: CustomOptions)
    requires options.daysPerWeek.None? && options.experienceLevel.None? && options.equipment.None?
    ensures BuildCustomPrompt(options)
      == BuildCustomPrompt(options.(daysPerWeek := Some(7), experienceLevel := Some("beginner"), equipment := Some([])))
  {
    var explicit := options.(daysPerWeek := Some(7), experienceLevel := Some("beginner"), equipment := Some([]));
    assert ResolveOptions(options) == ResolveOptions(explicit);
  }

  /** With no equipment given the prompt offers body weight only. */
  lemma CustomPromptBodyWeightOnly(options: CustomOptions)
    requires options.equipment.None? || options.equipment == Some([])
    ensures Contains(BuildCustomPrompt(options), CustomEquipmentLabel + "body weight only" + CustomListHeading)
  {
    ContainsThree(CustomPieces(options), 10);
  }

  /** The customised prompt lists the equipment-filtered exercises between the exercise
      heading and the instructions. */
  lemma CustomPromptListsExercises(options: CustomOptions)
    ensures Contains(BuildCustomPrompt(options),
      CustomListHeading + CustomExercisesList(SelectExercises(options.exercises, ResolveOptions(options).equipment))
        + CustomInstructionsHead)
  {
    ContainsThree(CustomPieces(options), 12);
  }

  /** Days per week goes in verbatim, in the opening sentence and again in the instructions. */
  lemma CustomPromptNamesDays(options: CustomOptions)
    ensures var p, days := BuildCustomPrompt(options), IntToString(ResolveOptions(options).daysPerWeek);
      && Contains(p, CustomIntro + days + CustomPlanFor)
      && Contains(p, CustomInstructionsHead + days + CustomInstructions)
  {
    var pieces := CustomPieces(options);
    ContainsThree(pieces, 0);
    ContainsThree(pieces, 14);
  }

  /** The experience level goes in verbatim, in the opening sentence and again in the
      instructions. */
  lemma CustomPromptNamesLevel(options: CustomOptions)
    ensures var p, level := BuildCustomPrompt(options), ResolveOptions(options).experienceLevel;
      && Contains(p, CustomPlanFor + level + CustomLevelPerson)
      && Contains(p, CustomInstructions + level + CustomFormat)
  {
    var pieces := CustomPieces(options);
    ContainsThree(pieces, 2);
    ContainsThree(pieces, 16);
  }

  /** The target muscle and the daily duration go in verbatim under their labels. */
  lemma CustomPromptNamesRequest(options: CustomOptions)
    ensures var p := BuildCustomPrompt(options);
      && Contains(p, TargetLabelText + options.targetMuscle + DurationLabelText)
      && Contains(p, DurationLabelText + IntToString(options.durationMinutes) + MinutesPerDay)
  {
    var pieces := CustomPieces(options);
    ContainsThree(pieces, 5);
    ContainsThree(pieces, 7);
  }
}
