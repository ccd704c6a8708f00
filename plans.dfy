/** The records the service passes around: catalogue exercises, the plan the model
    returns (referencing exercises by id only) and the enriched plan sent back. */
module Plans {

  import opened Wrappers

  /** One row of the `exercises` table. The catalogue listing selects only the first five
      columns; a lookup by id also returns the list and image columns. */
  datatype Exercise = Exercise(
    id: string,
    name: string,
    bodypart: string,
    target: string,
    equipment: string,
    otherMuscles: seq<string>,
    instructions: seq<string>,
    gifUrl: string,
    gifId: string)

  /** One exercise of a day in the model's plan. */
  datatype Assignment = Assignment(
    exerciseId: string,
    exerciseName: string,
    sets: int,
    reps: string,
    restSeconds: int)

  datatype Day = Day(day: int, dayName: string, exercises: seq<Assignment>)

  /** The parsed answer of the model: `plan`, `total_weekly_minutes`, `target_muscle`. */
  datatype Plan = Plan(days: seq<Day>, totalWeeklyMinutes: int, targetMuscle: string)

  /** `{...ex, details}`: the assignment's own fields and the catalogue record, or `null`. */
  datatype EnrichedAssignment = EnrichedAssignment(assignment: Assignment, details: Option<Exercise>)

  datatype EnrichedDay = EnrichedDay(day: int, dayName: string, exercises: seq<EnrichedAssignment>)

  datatype EnrichedPlan = EnrichedPlan(days: seq<EnrichedDay>, totalWeeklyMinutes: int, targetMuscle: string)
}
