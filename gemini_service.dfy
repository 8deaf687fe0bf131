/** `analyzeTask` (services/geminiService.ts): ask the generative model for a
    breakdown of a task, then parse its answer, falling back to a fixed
    breakdown when the answer does not parse. The model call and `JSON.parse`
    are foreign; both are passed in as functions. */
module GeminiService {
  import opened Wrappers
  import opened Types
  import opened Strings

  /** How `generateContent` settled: a response whose `text` may be missing,
      or a rejection with its message. */
  datatype Generation = Generated(text: Option<string>) | GenerationFailed(message: string)

  const PromptLead: string := "Analyze this task and break it down into smaller steps: "

  /** The prompt: the fixed lead, then the title verbatim between double quotes. */
  function Prompt(taskTitle: string): (p: string)
    ensures |p| == |PromptLead| + |taskTitle| + 2
    ensures p[..|PromptLead|] == PromptLead
    ensures p[|PromptLead|] == '"' && p[|p| - 1] == '"'
    ensures p[|PromptLead| + 1..|p| - 1] == taskTitle
  {
    PromptLead + "\"" + taskTitle + "\""
  }

  /** The breakdown returned when the response does not parse. */
  const Fallback: AIAnalysis :=
    AIAnalysis(["Start working", "Stay focused", "Complete task"],
               "Break large goals into small steps.", "Unknown")

  /** The guarded part (geminiService.ts:35-44): the trimmed text is parsed,
      and any failure there (including a missing `text`, whose `trim()` throws)
      yields the fallback. A parsed value is returned as it is. */
  function ParseOrFallback(text: Option<string>, parse: string -> Option<AIAnalysis>): (a: AIAnalysis)
    ensures text.Some? && parse(Trim(text.value)).Some? ==> a == parse(Trim(text.value)).value
    ensures text.None? || parse(Trim(text.value)).None? ==> a == Fallback
  {
    match text
    case None => Fallback
    case Some(t) => parse(Trim(t)).GetOr(Fallback)
  }

  /** `analyzeTask(taskTitle)`: the model is asked once, with `Prompt(taskTitle)`.
      Its rejection is not caught and reaches the caller unchanged; once it
      answers, the call always succeeds. */
  function AnalyzeTask(taskTitle: string, generate: string -> Generation,
                       parse: string -> Option<AIAnalysis>): (r: Result<AIAnalysis, string>)
    ensures r.Failure? <==> generate(Prompt(taskTitle)).GenerationFailed?
    ensures r.Failure? ==> r.error == generate(Prompt(taskTitle)).message
    ensures r.Success? ==> r.value == ParseOrFallback(generate(Prompt(taskTitle)).text, parse)
  {
    match generate(Prompt(taskTitle))
    case GenerationFailed(message) => Failure(message)
    case Generated(text) => Success(ParseOrFallback(text, parse))
  }

  /** The prompt quotes the title, and the title can be read back from it. */
  lemma PromptQuotesTitle(taskTitle: string)
    ensures Contains(Prompt(taskTitle), "\"" + taskTitle + "\"")
    ensures Prompt(taskTitle)[|PromptLead| + 1..|Prompt(taskTitle)| - 1] == taskTitle
  {
    assert Prompt(taskTitle) == PromptLead + ("\"" + taskTitle + "\"") + "";
    ContainsInfix(PromptLead, "\"" + taskTitle + "\"", "");
  }

  /** Different titles give different prompts. */
  lemma PromptInjective(t1: string, t2: string)
    requires Prompt(t1) == Prompt(t2)
    ensures t1 == t2
  {
    PromptQuotesTitle(t1);
    PromptQuotesTitle(t2);
  }

  /** Whitespace around the response text does not change the breakdown. */
  lemma AnalysisIgnoresPadding(p: string, text: string, q: string, parse: string -> Option<AIAnalysis>)
    requires AllWhitespace(p) && AllWhitespace(q)
    ensures ParseOrFallback(Some(p + text + q), parse) == ParseOrFallback(Some(text), parse)
  {
    TrimIgnoresPadding(p, text, q);
  }
}
