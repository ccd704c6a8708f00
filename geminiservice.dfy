/** The client of the generative model: cleaning the model's answer of Markdown code fences,
    parsing it, and the single error its caller sees when anything goes wrong. The model call
    itself and `JSON.parse` are parameters of the functions below. */
module GeminiService {

  import opened Wrappers
  import opened JsStrings
  import opened Plans
  import PromptBuilder

  const InvalidResponseFormat: string := "Invalid response format from AI"
  const GenerationFailed: string := "Failed to generate workout plan"

  /** Three backticks start at position `i` of `s`. */
  predicate BackticksAt(s: string, i: nat) {
    i + 3 <= |s| && s[i] == '`' && s[i + 1] == '`' && s[i + 2] == '`'
  }

  /** Length of the match of the pattern /```json\n?|\n?```/ that starts at the front of `s`,
      or 0 when none does. The first alternative is tried first and takes the newline when
      there is one; the second tries a leading newline before doing without it. */
  function FenceMatch(s: string): (n: nat)
    ensures n <= |s|
    ensures n == 0 <==> !BackticksAt(s, 0) && !(|s| > 0 && s[0] == '\n' && BackticksAt(s, 1))
  {
    if BackticksAt(s, 0) && 7 <= |s| && s[3] == 'j' && s[4] == 's' && s[5] == 'o' && s[6] == 'n' then
      (if 8 <= |s| && s[7] == '\n' then 8 else 7)
    else if |s| > 0 && s[0] == '\n' && BackticksAt(s, 1) then 4
    else if BackticksAt(s, 0) then 3
    else 0
  }

  /** `s.replace(/```json\n?|\n?```/g, '')`: one scan from left to right that deletes each
      match and resumes after it, keeping every character at which no match starts. */
  function StripFences(s: string): (r: string)
    ensures |r| <= |s|
    ensures '`' !in s ==> r == s
    decreases |s|
  {
    if |s| == 0 then ""
    else
      var n := FenceMatch(s);
      if n > 0 then StripFences(s[n..]) else [s[0]] + StripFences(s[1..])
  }

  /** The text handed to `JSON.parse`: fences removed, then trimmed. */
  function CleanResponse(text: string): (cleaned: string)
    ensures IsTrimmed(cleaned)
    ensures '`' !in text ==> cleaned == Trim(text)
  {
    Trim(StripFences(text))
  }

  /** A closing fence after backtick-free text is removed and nothing else is. */
  lemma {:induction false} StripClosingFence(body: string)
    requires '`' !in body
    ensures StripFences(body + "\n```") == body
    decreases |body|
  {
    var s := body + "\n```";
    if |body| == 0 {
      assert s == "\n```";
      assert FenceMatch(s) == 4;
    } else {
      assert s[0] == body[0];
      assert s[1] == if |body| > 1 then body[1] else '\n';
      assert FenceMatch(s) == 0;
      assert s[1..] == body[1..] + "\n```";
      StripClosingFence(body[1..]);
      assert body == [body[0]] + body[1..];
    }
  }

  /** A backtick-free JSON text wrapped in a ```json fence cleans to the trimmed text. */
  lemma FencedBlockCleans(body: string)
    requires '`' !in body
    ensures StripFences("```json\n" + body + "\n```") == body
    ensures CleanResponse("```json\n" + body + "\n```") == Trim(body)
  {
    var s := "```json\n" + body + "\n```";
    assert StartsWith(s, "```json") && s[7] == '\n';
    assert FenceMatch(s) == 8;
    assert s[8..] == body + "\n```";
    StripClosingFence(body);
  }

  /** The scan tries the opening fence only where it stands: a newline before "```json"
      is taken together with the backticks by the second alternative, and "json" stays. */
  lemma NewlineBeforeOpeningFence()
    ensures StripFences("\n```json") == "json"
  {
    var s := "\n```json";
    assert FenceMatch(s) == 4;
    assert s[4..] == "json";
    assert FenceMatch("json") == 0 && FenceMatch("son") == 0 && FenceMatch("on") == 0 && FenceMatch("n") == 0;
  }

  /** So a fenced answer preceded by a newline keeps the word "json" in front of its body. */
  lemma NewlineBeforeFencedBlock(body: string)
    requires '`' !in body
    ensures CleanResponse("\n```json" + body + "\n```") == Trim("json" + body)
  {
    var s := "\n```json" + body + "\n```";
    assert FenceMatch(s) == 4;
    assert s[4..] == ("json" + body) + "\n```";
    StripClosingFence("json" + body);
  }

  /** `parseGeminiResponse`: the parse of the cleaned text, or the format error when the
      cleaned text does not parse. */
  function ParseGeminiResponse<T>(text: string, parse: string -> Option<T>): (r: Result<T, string>)
    ensures r.Success? <==> parse(CleanResponse(text)).Some?
    ensures r.Success? ==> r.value == parse(CleanResponse(text)).value
    ensures r.Failure? ==> r.error == InvalidResponseFormat
  {
    match parse(CleanResponse(text))
    case Some(v) => Success(v)
    case None => Failure(InvalidResponseFormat)
  }

  /** A fenced answer parses exactly as the bare JSON inside it would. */
  lemma FencedParsesAsUnwrapped<T>(body: string, parse: string -> Option<T>)
    requires '`' !in body
    ensures ParseGeminiResponse("```json\n" + body + "\n```", parse) == ParseGeminiResponse(body, parse)
  {
    FencedBlockCleans(body);
  }

  /** `generateWorkoutPlan`: build the prompt, ask the model, parse its answer. A failed call
      and an unparsable answer are both caught and replaced by the same generic error. */
  function GenerateWorkoutPlan<T>(
    targetMuscle: string, durationMinutes: int, exercises: seq<Exercise>,
    model: string -> Result<string, string>, parse: string -> Option<T>): (r: Result<T, string>)
    ensures var answer := model(PromptBuilder.BuildWorkoutPrompt(targetMuscle, durationMinutes, exercises));
      r.Success? <==> answer.Success? && ParseGeminiResponse(answer.value, parse).Success?
    ensures var answer := model(PromptBuilder.BuildWorkoutPrompt(targetMuscle, durationMinutes, exercises));
      r.Success? ==> r.value == parse(CleanResponse(answer.value)).value
    ensures r.Failure? ==> r.error == GenerationFailed
  {
    var prompt := PromptBuilder.BuildWorkoutPrompt(targetMuscle, durationMinutes, exercises);
    match model(prompt)
    case Failure(_) => Failure(GenerationFailed)
    case Success(text) =>
      match ParseGeminiResponse(text, parse)
      case Success(plan) => Success(plan)
      case Failure(_) => Failure(GenerationFailed)
  }

  /** The caller cannot tell a failed model call from an answer that does not parse:
      both end in the same error value. */
  lemma CallAndParseFailuresAgree<T>(
    targetMuscle: string, durationMinutes: int, exercises: seq<Exercise>,
    failingModel: string -> Result<string, string>, answeringModel: string -> Result<string, string>,
    parse: string -> Option<T>)
    requires failingModel(PromptBuilder.BuildWorkoutPrompt(targetMuscle, durationMinutes, exercises)).Failure?
    requires var answer := answeringModel(PromptBuilder.BuildWorkoutPrompt(targetMuscle, durationMinutes, exercises));
      answer.Success? && parse(CleanResponse(answer.value)).None?
    ensures GenerateWorkoutPlan(targetMuscle, durationMinutes, exercises, failingModel, parse)
      == GenerateWorkoutPlan(targetMuscle, durationMinutes, exercises, answeringModel, parse)
      == Failure(GenerationFailed)
  {
  }
}
