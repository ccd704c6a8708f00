/** The request handlers: validating a plan request, collecting the exercise ids a generated
    plan refers to, joining the plan with the catalogue records, and choosing the response.
    The database and the model are parameters: a catalogue listing, a lookup by ids, the
    model call and `JSON.parse`. */
module WorkoutController {

  import opened Wrappers
  import opened Plans
  import opened ExerciseStore
  import GeminiService

  // ---------------------------------------------------------------------------
  // extractExerciseIds

  function AssignmentIds(exercises: seq<Assignment>): seq<string> {
    seq(|exercises|, k requires 0 <= k < |exercises| => exercises[k].exerciseId)
  }

  /** Every `exercise_id` of the plan, days in order and within a day exercises in order. */
  function PlanIds(days: seq<Day>): seq<string> {
    if |days| == 0 then [] else PlanIds(days[..|days| - 1]) + AssignmentIds(days[|days| - 1].exercises)
  }

  /** Some exercise of some day of the plan has this id. */
  ghost predicate Referenced(days: seq<Day>, id: string) {
    exists i, j :: 0 <= i < |days| && 0 <= j < |days[i].exercises| && days[i].exercises[j].exerciseId == id
  }

  /** The walk over days and exercises meets exactly the ids the plan refers to. */
  lemma {:induction false} PlanIdsReferenced(days: seq<Day>)
    ensures forall id :: id in PlanIds(days) <==> Referenced(days, id)
    decreases |days|
  {
    if |days| > 0 {
      var n := |days| - 1;
      var front := days[..n];
      PlanIdsReferenced(front);
      forall id ensures id in PlanIds(days) <==> Referenced(days, id) {
        var here := AssignmentIds(days[n].exercises);
        if id in here {
          var j :| 0 <= j < |here| && here[j] == id;
          assert days[n].exercises[j].exerciseId == id;
        }
        if Referenced(days, id) {
          var i, j :| 0 <= i < |days| && 0 <= j < |days[i].exercises| && days[i].exercises[j].exerciseId == id;
          if i < n {
            assert front[i].exercises[j].exerciseId == id;
          } else {
            assert here[j] == id;
          }
        }
        if Referenced(front, id) {
          var i, j :| 0 <= i < |front| && 0 <= j < |front[i].exercises| && front[i].exercises[j].exerciseId == id;
          assert days[i].exercises[j].exerciseId == id;
        }
      }
    }
  }

  /** The distinct elements of `s`, each where it first occurs: what adding `s` to a `Set`
      one by one and reading the set back with `Array.from` gives. */
  function Dedup<T(==)>(s: seq<T>): seq<T> {
    if |s| == 0 then []
    else
      var d := Dedup(s[..|s| - 1]);
      if s[|s| - 1] in d then d else d + [s[|s| - 1]]
  }

  predicate NoDuplicates<T(==)>(s: seq<T>) {
    forall i, j :: 0 <= i < j < |s| ==> s[i] != s[j]
  }

  /** Position of the first `x` in `s`, or `|s|` when it does not occur. */
  function FirstIndex<T(==)>(s: seq<T>, x: T): (k: nat)
    ensures k <= |s|
    ensures k < |s| <==> x in s
    ensures k < |s| ==> s[k] == x
    ensures forall i :: 0 <= i < k ==> s[i] != x
  {
    if |s| == 0 then 0 else if s[0] == x then 0 else 1 + FirstIndex(s[1..], x)
  }

  /** Appending an element does not move the first occurrence of one already present. */
  lemma FirstIndexExtend<T>(s: seq<T>, z: T, x: T)
    requires x in s
    ensures FirstIndex(s + [z], x) == FirstIndex(s, x)
  {
    var k := FirstIndex(s, x);
    assert (s + [z])[k] == x;
    assert forall i :: 0 <= i < k ==> (s + [z])[i] == s[i];
  }

  /** The deduplicated sequence has no repeats and holds exactly the elements of `s`. */
  lemma {:induction false} DedupElements<T>(s: seq<T>)
    ensures NoDuplicates(Dedup(s))
    ensures forall x :: x in Dedup(s) <==> x in s
    decreases |s|
  {
    if |s| > 0 {
      var p, x := s[..|s| - 1], s[|s| - 1];
      DedupElements(p);
      assert s == p + [x];
    }
  }

  lemma DedupMember<T>(s: seq<T>, i: nat)
    requires i < |Dedup(s)|
    ensures Dedup(s)[i] in s
  {
    DedupElements(s);
    assert Dedup(s)[i] in Dedup(s);
  }

  /** The deduplicated sequence lists the elements in the order of their first occurrence. */
  lemma {:induction false} DedupOrder<T>(s: seq<T>)
    ensures forall i, j :: 0 <= i < j < |Dedup(s)| ==> FirstIndex(s, Dedup(s)[i]) < FirstIndex(s, Dedup(s)[j])
    decreases |s|
  {
    if |s| > 0 {
      var p, x := s[..|s| - 1], s[|s| - 1];
      DedupOrder(p);
      assert s == p + [x];
      var d, r := Dedup(p), Dedup(s);
      assert r == if x in d then d else d + [x];
      forall i, j | 0 <= i < j < |r| ensures FirstIndex(s, r[i]) < FirstIndex(s, r[j]) {
        assert r[i] == d[i];
        DedupMember(p, i);
        FirstIndexExtend(p, x, r[i]);
        if j < |d| {
          assert r[j] == d[j];
          DedupMember(p, j);
          FirstIndexExtend(p, x, r[j]);
        } else {
          assert r[j] == x && x !in d;
          DedupElements(p);
        }
      }
    }
  }

  lemma DedupSnoc<T>(s: seq<T>, x: T)
    ensures Dedup(s + [x]) == if x in Dedup(s) then Dedup(s) else Dedup(s) + [x]
  {
    assert (s + [x])[..|s|] == s;
  }

  lemma AssignmentIdsSnoc(exercises: seq<Assignment>, j: nat)
    requires j < |exercises|
    ensures AssignmentIds(exercises[..j + 1]) == AssignmentIds(exercises[..j]) + [exercises[j].exerciseId]
  {
  }

  /** `extractExerciseIds`: walks the days and their exercises, adding each id to a set.
      `seen` and `ids` are the two faces of the JavaScript `Set`: membership and insertion order. */
  method ExtractExerciseIds(plan: Plan) returns (ids: seq<string>)
    ensures ids == Dedup(PlanIds(plan.days))
    ensures NoDuplicates(ids)
    ensures forall id :: id in ids <==> Referenced(plan.days, id)
    ensures forall i, j :: 0 <= i < j < |ids| ==>
      FirstIndex(PlanIds(plan.days), ids[i]) < FirstIndex(PlanIds(plan.days), ids[j])
  {
    var seen: set<string> := {};
    ids := [];
    var d := 0;
    while d < |plan.days|
      invariant 0 <= d <= |plan.days|
      invariant ids == Dedup(PlanIds(plan.days[..d]))
      invariant forall x :: x in seen <==> x in ids
    {
      var exercises := plan.days[d].exercises;
      var e := 0;
      assert PlanIds(plan.days[..d]) + AssignmentIds(exercises[..e]) == PlanIds(plan.days[..d]);
      while e < |exercises|
        invariant 0 <= e <= |exercises|
        invariant ids == Dedup(PlanIds(plan.days[..d]) + AssignmentIds(exercises[..e]))
        invariant forall x :: x in seen <==> x in ids
      {
        var id := exercises[e].exerciseId;
        AssignmentIdsSnoc(exercises, e);
        DedupSnoc(PlanIds(plan.days[..d]) + AssignmentIds(exercises[..e]), id);
        assert PlanIds(plan.days[..d]) + AssignmentIds(exercises[..e + 1])
          == PlanIds(plan.days[..d]) + AssignmentIds(exercises[..e]) + [id];
        if id !in seen {
          seen := seen + {id};
          ids := ids + [id];
        }
        e := e + 1;
      }
      assert exercises[..e] == exercises;
      assert plan.days[..d + 1][..d] == plan.days[..d];
      d := d + 1;
    }
    assert plan.days[..d] == plan.days;
    DedupElements(PlanIds(plan.days));
    DedupOrder(PlanIds(plan.days));
    PlanIdsReferenced(plan.days);
  }

  // ---------------------------------------------------------------------------
  // enrichPlanWithDetails

  /** `detailsMap`: each record stored under its id, a later record replacing an earlier one. */
  function DetailsMap(details: seq<Exercise>): map<string, Exercise> {
    if |details| == 0 then map[]
    else DetailsMap(details[..|details| - 1])[details[|details| - 1].id := details[|details| - 1]]
  }

  /** The last record with this id, or `None` when there is none. */
  function LastMatch(details: seq<Exercise>, id: string): Option<Exercise> {
    if |details| == 0 then None
    else if details[|details| - 1].id == id then Some(details[|details| - 1])
    else LastMatch(details[..|details| - 1], id)
  }

  /** `detailsMap[id] || null`. */
  function Lookup(m: map<string, Exercise>, id: string): Option<Exercise> {
    if id in m then Some(m[id]) else None
  }

  /** Last write wins: the map answers each id with the last record carrying it. */
  lemma {:induction false} DetailsMapIsLastMatch(details: seq<Exercise>, id: string)
    ensures Lookup(DetailsMap(details), id) == LastMatch(details, id)
    decreases |details|
  {
    if |details| > 0 {
      DetailsMapIsLastMatch(details[..|details| - 1], id);
    }
  }

  /** `LastMatch` is the record at the last index with that id, and `None` exactly when no
      record has the id. */
  lemma {:induction false} LastMatchSpec(details: seq<Exercise>, id: string)
    ensures LastMatch(details, id).None? <==> forall i :: 0 <= i < |details| ==> details[i].id != id
    ensures forall i :: (0 <= i < |details| && details[i].id == id
      && (forall j :: i < j < |details| ==> details[j].id != id)) ==> LastMatch(details, id) == Some(details[i])
    ensures LastMatch(details, id).Some? ==>
      LastMatch(details, id).value in details && LastMatch(details, id).value.id == id
    decreases |details|
  {
    if |details| > 0 {
      var front := details[..|details| - 1];
      LastMatchSpec(front, id);
      if details[|details| - 1].id != id {
        forall i | 0 <= i < |front| && front[i].id == id
          && (forall j :: i < j < |front| ==> front[j].id != id)
          ensures LastMatch(front, id) == Some(details[i])
        {
          assert details[i] == front[i];
        }
        forall i | 0 <= i < |details| && details[i].id == id
          && (forall j :: i < j < |details| ==> details[j].id != id)
          ensures LastMatch(details, id) == Some(details[i])
        {
          assert i < |front| && front[i] == details[i];
          assert forall j :: i < j < |front| ==> front[j] == details[j];
        }
      }
    }
  }

  /** The `forEach` filling `detailsMap`. */
  method BuildDetailsMap(details: seq<Exercise>) returns (m: map<string, Exercise>)
    ensures m == DetailsMap(details)
    ensures forall id :: Lookup(m, id) == LastMatch(details, id)
    ensures m.Keys == set ex | ex in details :: ex.id
  {
    m := map[];
    var i := 0;
    while i < |details|
      invariant 0 <= i <= |details|
      invariant m == DetailsMap(details[..i])
    {
      assert details[..i + 1][..i] == details[..i];
      m := m[details[i].id := details[i]];
      i := i + 1;
    }
    assert details[..i] == details;
    forall id ensures Lookup(m, id) == LastMatch(details, id) {
      DetailsMapIsLastMatch(details, id);
    }
    forall id ensures id in m <==> id in set ex | ex in details :: ex.id {
      LastMatchSpec(details, id);
      if id in m {
        assert LastMatch(details, id).value in details;
      }
    }
  }

  /** `{...ex, details: detailsMap[ex.exercise_id] || null}` */
  function EnrichAssignment(m: map<string, Exercise>, a: Assignment): EnrichedAssignment {
    EnrichedAssignment(a, Lookup(m, a.exerciseId))
  }

  /** `{...day, exercises: day.exercises.map(...)}` */
  function EnrichDay(m: map<string, Exercise>, d: Day): EnrichedDay {
    EnrichedDay(d.day, d.dayName, seq(|d.exercises|, k requires 0 <= k < |d.exercises| => EnrichAssignment(m, d.exercises[k])))
  }

  /** `{...aiPlan, plan: aiPlan.plan.map(...)}` */
  function EnrichWithMap(p: Plan, m: map<string, Exercise>): EnrichedPlan {
    EnrichedPlan(seq(|p.days|, i requires 0 <= i < |p.days| => EnrichDay(m, p.days[i])), p.totalWeeklyMinutes, p.targetMuscle)
  }

  /** `r` is `p` with every assignment given `details`: the same top-level fields, the same
      days in the same order with the same fields, the same assignments in the same order,
      each kept whole and paired with the last record of `details` carrying its id, or with
      `None` when no record does. */
  ghost predicate IsEnrichmentOf(r: EnrichedPlan, p: Plan, details: seq<Exercise>) {
    && r.totalWeeklyMinutes == p.totalWeeklyMinutes
    && r.targetMuscle == p.targetMuscle
    && |r.days| == |p.days|
    && forall i :: 0 <= i < |p.days| ==>
      && r.days[i].day == p.days[i].day
      && r.days[i].dayName == p.days[i].dayName
      && |r.days[i].exercises| == |p.days[i].exercises|
      && forall j :: 0 <= j < |p.days[i].exercises| ==>
        r.days[i].exercises[j]
          == EnrichedAssignment(p.days[i].exercises[j], LastMatch(details, p.days[i].exercises[j].exerciseId))
  }

  /** The enriched plan, as a value. */
  function Enrich(p: Plan, details: seq<Exercise>): (r: EnrichedPlan)
    ensures IsEnrichmentOf(r, p, details)
  {
    forall id ensures Lookup(DetailsMap(details), id) == LastMatch(details, id) {
      DetailsMapIsLastMatch(details, id);
    }
    EnrichWithMap(p, DetailsMap(details))
  }

  /** `enrichPlanWithDetails`: fills the map with a loop, then rebuilds the plan. Its inputs
      are values, so neither the plan nor the records are changed. */
  method EnrichPlanWithDetails(aiPlan: Plan, exerciseDetails: seq<Exercise>) returns (r: EnrichedPlan)
    ensures r == Enrich(aiPlan, exerciseDetails)
    ensures IsEnrichmentOf(r, aiPlan, exerciseDetails)
  {
    var detailsMap := BuildDetailsMap(exerciseDetails);
    r := EnrichWithMap(aiPlan, detailsMap);
  }

  /** When the records come from a lookup of the plan's ids in a catalogue whose ids are
      unique, every assignment is paired with the catalogue's record for its id, and with
      `None` exactly when the catalogue has no such record. */
  lemma EnrichFromCatalogue(catalog: seq<Exercise>, p: Plan, rows: seq<Exercise>, i: nat, j: nat)
    requires UniqueIds(catalog)
    requires IsLookupResult(catalog, Dedup(PlanIds(p.days)), rows)
    requires i < |p.days| && j < |p.days[i].exercises|
    ensures var a := Enrich(p, rows).days[i].exercises[j];
      && a.assignment == p.days[i].exercises[j]
      && a.details == LastMatch(catalog, p.days[i].exercises[j].exerciseId)
  {
    var id := p.days[i].exercises[j].exerciseId;
    var ids := Dedup(PlanIds(p.days));
    assert Referenced(p.days, id);
    PlanIdsReferenced(p.days);
    DedupElements(PlanIds(p.days));
    assert id in ids;
    LookupRows(catalog, ids, rows);
    LastMatchSpec(rows, id);
    LastMatchSpec(catalog, id);
    var inRows, inCatalog := LastMatch(rows, id), LastMatch(catalog, id);
    if inCatalog.Some? {
      assert inCatalog.value in rows;
      assert inRows.Some?;
      var a :| 0 <= a < |catalog| && catalog[a] == inRows.value;
      var b :| 0 <= b < |catalog| && catalog[b] == inCatalog.value;
    }
  }

  // ---------------------------------------------------------------------------
  // generateWorkout

  const MissingFields: string := "Missing required fields: target_muscle and duration_minutes"
  const DurationOutOfRange: string := "Duration must be between 5 and 120 minutes"
  const NoExercisesFound: string := "No exercises found in database"

  /** The request body; `None` is a field that is absent or `null`. */
  datatype GenerateRequest = GenerateRequest(targetMuscle: Option<string>, durationMinutes: Option<int>)

  /** JavaScript truthiness of the two fields: a present, non-empty string; a present, non-zero number. */
  predicate TruthyText(o: Option<string>) { o.Some? && o.value != "" }
  predicate TruthyNumber(o: Option<int>) { o.Some? && o.value != 0 }

  datatype Validation = Accepted(targetMuscle: string, durationMinutes: int) | Rejected(message: string)

  /** The two input checks of `generateWorkout`, in their order. */
  function ValidateGenerateRequest(req: GenerateRequest): (v: Validation)
    ensures v.Accepted? <==>
      req.targetMuscle.Some? && req.targetMuscle.value != ""
      && req.durationMinutes.Some? && 5 <= req.durationMinutes.value <= 120
    ensures v.Accepted? ==> v.targetMuscle == req.targetMuscle.value && v.durationMinutes == req.durationMinutes.value
    ensures v.Rejected? ==>
      (v.message == MissingFields <==> !TruthyText(req.targetMuscle) || !TruthyNumber(req.durationMinutes))
    ensures v.Rejected? ==> v.message == MissingFields || v.message == DurationOutOfRange
  {
    if !TruthyText(req.targetMuscle) || !TruthyNumber(req.durationMinutes) then Rejected(MissingFields)
    else if req.durationMinutes.value < 5 || req.durationMinutes.value > 120 then Rejected(DurationOutOfRange)
    else Accepted(req.targetMuscle.value, req.durationMinutes.value)
  }

  /** A duration of 0 is reported as a missing field, not as out of range. */
  lemma ZeroDurationIsMissing(targetMuscle: Option<string>)
    ensures ValidateGenerateRequest(GenerateRequest(targetMuscle, Some(0))) == Rejected(MissingFields)
  {
  }

  /** What `generateWorkout` sends: a plan with its timestamp, or a status with an error and
      possibly the underlying message. */
  datatype GenerateResponse =
    | Generated(data: EnrichedPlan, generatedAt: string)
    | Failed(status: int, error: string, details: Option<string>)

  /** The response of `generateWorkout` as a value. `catalog` is the answer of the catalogue
      listing, `lookup` answers a lookup by ids, `model` is the model call, `parse` is
      `JSON.parse`, and `now` the timestamp; a `Failure` of any of them is a thrown error, which
      the handler's `catch` turns into a 500 carrying the error's message. */
  function GenerateOutcome(
    req: GenerateRequest, catalog: Result<seq<Exercise>, string>,
    model: string -> Result<string, string>, parse: string -> Option<Plan>,
    lookup: seq<string> -> Result<seq<Exercise>, string>, now: string): GenerateResponse
  {
    match ValidateGenerateRequest(req)
    case Rejected(message) => Failed(400, message, None)
    case Accepted(targetMuscle, durationMinutes) =>
      match catalog
      case Failure(e) => Failed(500, GeminiService.GenerationFailed, Some(e))
      case Success(exercises) =>
        if |exercises| == 0 then Failed(500, NoExercisesFound, None)
        else
          match GeminiService.GenerateWorkoutPlan(targetMuscle, durationMinutes, exercises, model, parse)
          case Failure(e) => Failed(500, GeminiService.GenerationFailed, Some(e))
          case Success(plan) =>
            match lookup(Dedup(PlanIds(plan.days)))
            case Failure(e) => Failed(500, GeminiService.GenerationFailed, Some(e))
            case Success(rows) => Generated(Enrich(plan, rows), now)
  }

  /** `generateWorkout`: the same steps, with id extraction and enrichment done by the loops. */
  method GenerateWorkout(
    req: GenerateRequest, catalog: Result<seq<Exercise>, string>,
    model: string -> Result<string, string>, parse: string -> Option<Plan>,
    lookup: seq<string> -> Result<seq<Exercise>, string>, now: string) returns (res: GenerateResponse)
    ensures res == GenerateOutcome(req, catalog, model, parse, lookup, now)
  {
    var v := ValidateGenerateRequest(req);
    if v.Rejected? {
      return Failed(400, v.message, None);
    }
    if catalog.Failure? {
      return Failed(500, GeminiService.GenerationFailed, Some(catalog.error));
    }
    var allExercises := catalog.value;
    if |allExercises| == 0 {
      return Failed(500, NoExercisesFound, None);
    }
    var aiPlan := GeminiService.GenerateWorkoutPlan(v.targetMuscle, v.durationMinutes, allExercises, model, parse);
    if aiPlan.Failure? {
      return Failed(500, GeminiService.GenerationFailed, Some(aiPlan.error));
    }
    var exerciseIds := ExtractExerciseIds(aiPlan.value);
    var exerciseDetails := lookup(exerciseIds);
    if exerciseDetails.Failure? {
      return Failed(500, GeminiService.GenerationFailed, Some(exerciseDetails.error));
    }
    var enrichedPlan := EnrichPlanWithDetails(aiPlan.value, exerciseDetails.value);
    res := Generated(enrichedPlan, now);
  }

  /** A request is answered with 400 exactly when validation rejects it, and then before
      any service is asked: the answer is the same whatever the services would return. */
  lemma BadRequestBeforeServices(
    req: GenerateRequest, catalog: Result<seq<Exercise>, string>,
    model: string -> Result<string, string>, parse: string -> Option<Plan>,
    lookup: seq<string> -> Result<seq<Exercise>, string>, now: string,
    catalog': Result<seq<Exercise>, string>,
    model': string -> Result<string, string>, parse': string -> Option<Plan>,
    lookup': seq<string> -> Result<seq<Exercise>, string>, now': string)
    ensures var res := GenerateOutcome(req, catalog, model, parse, lookup, now);
      (res.Failed? && res.status == 400) <==> ValidateGenerateRequest(req).Rejected?
    ensures ValidateGenerateRequest(req).Rejected? ==>
      GenerateOutcome(req, catalog, model, parse, lookup, now)
        == GenerateOutcome(req, catalog', model', parse', lookup', now')
  {
  }

  /** An accepted request meeting an empty catalogue gets the 500 "no exercises" answer,
      whatever the model and the lookup would do. */
  lemma EmptyCatalogueBeforeModel(
    req: GenerateRequest, model: string -> Result<string, string>, parse: string -> Option<Plan>,
    lookup: seq<string> -> Result<seq<Exercise>, string>, now: string)
    requires ValidateGenerateRequest(req).Accepted?
    ensures GenerateOutcome(req, Success([]), model, parse, lookup, now) == Failed(500, NoExercisesFound, None)
  {
  }

  /** A plan is sent exactly when validation, the catalogue, the model, the parse and the
      lookup all succeed; it is the enrichment of the parsed plan with the looked-up rows. */
  lemma GeneratedExactlyWhenAllSucceed(
    req: GenerateRequest, catalog: Result<seq<Exercise>, string>,
    model: string -> Result<string, string>, parse: string -> Option<Plan>,
    lookup: seq<string> -> Result<seq<Exercise>, string>, now: string)
    ensures var res := GenerateOutcome(req, catalog, model, parse, lookup, now);
      var v := ValidateGenerateRequest(req);
      res.Generated? <==>
        && v.Accepted? && catalog.Success? && |catalog.value| > 0
        && GeminiService.GenerateWorkoutPlan(v.targetMuscle, v.durationMinutes, catalog.value, model, parse).Success?
        && lookup(Dedup(PlanIds(
             GeminiService.GenerateWorkoutPlan(v.targetMuscle, v.durationMinutes, catalog.value, model, parse).value.days))).Success?
    ensures var res := GenerateOutcome(req, catalog, model, parse, lookup, now);
      var v := ValidateGenerateRequest(req);
      res.Generated? ==>
        var plan := GeminiService.GenerateWorkoutPlan(v.targetMuscle, v.durationMinutes, catalog.value, model, parse).value;
        && res.generatedAt == now
        && IsEnrichmentOf(res.data, plan, lookup(Dedup(PlanIds(plan.days))).value)
    ensures var res := GenerateOutcome(req, catalog, model, parse, lookup, now);
      res.Failed? ==> res.status == 400 || res.status == 500
  {
  }

  /** Every error thrown after validation reaches the handler's `catch` and is sent as a 500
      with the generic error and the thrown message as details: the catalogue's own message,
      the generic message of a failed model call or parse (so the two cannot be told apart),
      or the lookup's message. The only other 500 is the empty catalogue's. */
  lemma ThrownErrorsSentAs500(
    req: GenerateRequest, catalog: Result<seq<Exercise>, string>,
    model: string -> Result<string, string>, parse: string -> Option<Plan>,
    lookup: seq<string> -> Result<seq<Exercise>, string>, now: string)
    requires ValidateGenerateRequest(req).Accepted?
    ensures catalog.Failure? ==>
      GenerateOutcome(req, catalog, model, parse, lookup, now)
        == Failed(500, GeminiService.GenerationFailed, Some(catalog.error))
    ensures var v := ValidateGenerateRequest(req);
      catalog.Success? && |catalog.value| > 0
      && GeminiService.GenerateWorkoutPlan(v.targetMuscle, v.durationMinutes, catalog.value, model, parse).Failure? ==>
      GenerateOutcome(req, catalog, model, parse, lookup, now)
        == Failed(500, GeminiService.GenerationFailed, Some(GeminiService.GenerationFailed))
    ensures var v := ValidateGenerateRequest(req);
      catalog.Success? && |catalog.value| > 0 ==>
      var plan := GeminiService.GenerateWorkoutPlan(v.targetMuscle, v.durationMinutes, catalog.value, model, parse);
      plan.Success? && lookup(Dedup(PlanIds(plan.value.days))).Failure? ==>
      GenerateOutcome(req, catalog, model, parse, lookup, now)
        == Failed(500, GeminiService.GenerationFailed, Some(lookup(Dedup(PlanIds(plan.value.days))).error))
    ensures var res := GenerateOutcome(req, catalog, model, parse, lookup, now);
      res.Failed? ==> res.status == 500 && (res.error == NoExercisesFound || (res.error == GeminiService.GenerationFailed && res.details.Some?))
  {
  }

  // ---------------------------------------------------------------------------
  // getExerciseById

  const ExerciseNotFound: string := "Exercise not found"

  datatype ExerciseResponse = Found(exercise: Exercise) | NotFound(error: string) | LookupFailed(error: string)

  function StatusCode(r: ExerciseResponse): int {
    match r
    case Found(_) => 200
    case NotFound(_) => 404
    case LookupFailed(_) => 500
  }

  /** `getExerciseById`: looks up the one id; 404 when nothing comes back, otherwise the
      first row; a thrown lookup error becomes a 500 with its message. */
  function GetExerciseById(id: string, lookup: seq<string> -> Result<seq<Exercise>, string>): (r: ExerciseResponse)
    ensures StatusCode(r) == 404 <==> lookup([id]) == Success([])
    ensures r.NotFound? ==> r.error == ExerciseNotFound
    ensures r.Found? <==> lookup([id]).Success? && |lookup([id]).value| > 0
    ensures r.Found? ==> r.exercise == lookup([id]).value[0]
    ensures r.LookupFailed? <==> lookup([id]).Failure?
    ensures r.LookupFailed? ==> r.error == lookup([id]).error
  {
    match lookup([id])
    case Failure(e) => LookupFailed(e)
    case Success(exercises) => if |exercises| == 0 then NotFound(ExerciseNotFound) else Found(exercises[0])
  }

  /** Against a catalogue with unique ids, the exercise is found exactly when the catalogue
      has a record with that id, and the record sent is that one. */
  lemma GetExerciseFromCatalogue(
    catalog: seq<Exercise>, id: string, lookup: seq<string> -> Result<seq<Exercise>, string>)
    requires UniqueIds(catalog)
    requires lookup([id]).Success? && IsLookupResult(catalog, [id], lookup([id]).value)
    ensures GetExerciseById(id, lookup).Found? <==> LastMatch(catalog, id).Some?
    ensures GetExerciseById(id, lookup).Found? ==> Some(GetExerciseById(id, lookup).exercise) == LastMatch(catalog, id)
  {
    var rows := lookup([id]).value;
    LookupRows(catalog, [id], rows);
    LastMatchSpec(catalog, id);
    var found := LastMatch(catalog, id);
    if |rows| > 0 {
      assert rows[0] in rows;
      var a :| 0 <= a < |catalog| && catalog[a] == rows[0];
      var b :| 0 <= b < |catalog| && catalog[b] == found.value;
    }
  }
}
