/**
 * The assistant cog: code-fence stripping shared by `review`, `optimize`,
 * `explain` and `improve`, the JSON reply of the model service and the
 * test for an error in it, the embeds built from an analysis, the chunked
 * explanation, and the per-user cooldown of `ask`.
 */
module AiAssistant {
  import opened Wrappers
  import opened Text
  import Serve

  // ---------------------------------------------------------------------
  // Code fences
  // ---------------------------------------------------------------------

  const Fence: string := "```"

  /** Python's `s[3:-3]`, which is empty when `s` has fewer than six characters. */
  function Unwrap(s: string): (r: string)
    ensures |s| >= 6 ==> r == s[3..|s| - 3]
    ensures |s| < 6 ==> r == ""
  {
    if |s| >= 6 then s[3..|s| - 3] else ""
  }

  /**
   * The fence stripping of the four code commands: a text that starts and
   * ends with three backticks loses them, then everything up to and
   * including its first newline, if it has one.
   */
  function StripFence(code: string): (r: string)
  {
    if StartsWith(code, Fence) && EndsWith(code, Fence) then
      var inner := Unwrap(code);
      match Find(inner, "\n")
      case Some(i) => inner[i + 1..]
      case None => inner
    else code
  }

  /** A text not wrapped in fences is left as it is. */
  lemma StripFenceUnfenced(code: string)
    requires !StartsWith(code, Fence) || !EndsWith(code, Fence)
    ensures StripFence(code) == code
  {
  }

  /** A fenced text without a newline inside loses exactly three characters at each end. */
  lemma StripFenceNoNewline(code: string)
    requires StartsWith(code, Fence) && EndsWith(code, Fence) && |code| >= 6
    requires !Contains(code[3..|code| - 3], "\n")
    ensures StripFence(code) == code[3..|code| - 3]
  {
  }

  /** A fenced block with a language line gives back exactly its body. */
  lemma StripFenceRoundTrip(language: string, body: string)
    requires !Contains(language, "\n")
    ensures StripFence(Fence + language + "\n" + body + Fence) == body
  {
    var code := Fence + language + "\n" + body + Fence;
    assert code[..3] == Fence;
    assert code[|code| - 3..] == Fence;
    var inner := language + "\n" + body;
    assert code[3..|code| - 3] == inner;
    assert Unwrap(code) == inner;
    assert inner == language + ("\n" + body);
    assert inner[|language|] == '\n';
    CharOccurs(inner, |language|);
    assert [inner[|language|]] == "\n";
    OccursAfterFree(language, "\n" + body);
    FindFirst(inner, "\n", |language|);
    assert inner[|language| + 1..] == body;
  }

  lemma OccursAfterFree(a: string, t: string)
    requires !Contains(a, "\n")
    ensures forall j :: 0 <= j < |a| ==> !OccursAt(a + t, "\n", j)
  {
    forall j | 0 <= j < |a|
      ensures !OccursAt(a + t, "\n", j)
    {
      if OccursAt(a + t, "\n", j) {
        assert (a + t)[j] == a[j];
        CharOccurs(a, j);
        ContainsAt(a, "\n", j);
      }
    }
  }

  // ---------------------------------------------------------------------
  // The model service's JSON reply
  // ---------------------------------------------------------------------

  /** The values of the reply's fields; `Null` is JSON's null, read back as `None`. */
  datatype Field = Null | Text(text: string) | Results(results: Serve.AnalysisResults)

  type Json = map<string, Field>

  /**
   * The JSON body of a `ModelResponse`: every field of the response model is
   * serialised, the ones that were not set as null.
   */
  function Serialize(r: Serve.ModelResponse): (j: Json)
    ensures j.Keys == {"generated_text", "analysis_results", "error"}
    ensures j["error"] != Null <==> r.ModelError?
  {
    match r
    case GeneratedText(text) => map["generated_text" := Text(text), "analysis_results" := Null, "error" := Null]
    case Analysis(results) => map["generated_text" := Null, "analysis_results" := Results(results), "error" := Null]
    case ModelError(error) => map["generated_text" := Null, "analysis_results" := Null, "error" := Text(error)]
  }

  /** What the HTTP call to the model service came back with. */
  datatype ApiOutcome =
    | Status(status: int, body: Serve.ModelResponse)
    | RequestFailed(message: string)

  /** `_call_model_api`: any status but 200, and any exception, becomes an `error` entry. */
  function CallModelApi(outcome: ApiOutcome): (j: Json)
    ensures outcome.Status? && outcome.status == 200 ==> j == Serialize(outcome.body)
    ensures outcome.Status? && outcome.status != 200 ==> j == map["error" := Text("API error: " + IntToString(outcome.status))]
    ensures outcome.RequestFailed? ==> j == map["error" := Text("API request failed: " + outcome.message)]
  {
    match outcome
    case Status(status, body) =>
      if status != 200 then map["error" := Text("API error: " + IntToString(status))] else Serialize(body)
    case RequestFailed(message) => map["error" := Text("API request failed: " + message)]
  }

  /** The test `"error" in response` of the commands, as written. */
  predicate ErrorKeyPresent(j: Json)
  {
    "error" in j
  }

  /** The intended test: an error entry that is not null. */
  predicate HasError(j: Json)
  {
    "error" in j && j["error"] != Null
  }

  /** The f-string rendering of a field: null prints as `None`. */
  function FieldText(f: Field): string
  {
    match f
    case Null => "None"
    case Text(t) => t
    case Results(_) => "{...}"
  }

  /**
   * As written, every reply of the model service has an `error` key, so a
   * successful analysis is reported as the error `None`.
   */
  lemma ErrorKeyAlwaysPresent(outcome: ApiOutcome)
    ensures ErrorKeyPresent(CallModelApi(outcome))
    ensures outcome.Status? && outcome.status == 200 && !outcome.body.ModelError? ==>
      "Sorry, I encountered an error: " + FieldText(CallModelApi(outcome)["error"]) == "Sorry, I encountered an error: None"
  {
  }

  /** The corrected test reports an error exactly for a failed call or a `ModelError` reply. */
  lemma HasErrorIff(outcome: ApiOutcome)
    ensures HasError(CallModelApi(outcome)) <==>
      outcome.RequestFailed? || outcome.status != 200 || outcome.body.ModelError?
  {
  }

  // ---------------------------------------------------------------------
  // Commands
  // ---------------------------------------------------------------------

  /** The request each command sends, all of them on the same stripped code. */
  datatype ApiRequest =
    | AnalyzeRequest(code: string, analysisType: string, maxLength: int)
    | GenerateRequest(prompt: string, maxLength: int)

  datatype CodeCommand = Review | Optimize | Explain | Improve

  function RequestFor(command: CodeCommand, code: string): (r: ApiRequest)
    ensures r.AnalyzeRequest? ==> r.code == StripFence(code)
    ensures r.GenerateRequest? ==> r.prompt == "Explain this code:\n\n" + StripFence(code) + "\n\nExplanation:"
    ensures r.maxLength == 1024
    ensures r.GenerateRequest? <==> command == Explain
  {
    var stripped := StripFence(code);
    match command
    case Review => AnalyzeRequest(stripped, "all", 1024)
    case Optimize => AnalyzeRequest(stripped, "performance", 1024)
    case Improve => AnalyzeRequest(stripped, "style", 1024)
    case Explain => GenerateRequest("Explain this code:\n\n" + stripped + "\n\nExplanation:", 1024)
  }

  /** The bullet of the embeds, as the source file spells it. */
  const SourceBullet: string := "\U{E2}\U{20AC}\U{A2} "

  function Bulleted(items: seq<string>): string
  {
    Join(seq(|items|, k requires 0 <= k < |items| => SourceBullet + items[k]), "\n")
  }

  lemma BulletedEmpty(items: seq<string>)
    ensures Bulleted(items) == "" <==> items == []
  {
    if items != [] {
      var bullets := seq(|items|, k requires 0 <= k < |items| => SourceBullet + items[k]);
      JoinHeadPrefix(bullets, "\n");
      assert |bullets[0]| >= |SourceBullet|;
    }
  }

  lemma JoinHeadPrefix(parts: seq<string>, sep: string)
    requires |parts| > 0
    ensures |Join(parts, sep)| >= |parts[0]|
  {
    if |parts| > 1 {
      assert Join(parts, sep) == parts[0] + sep + Join(parts[1..], sep);
    }
  }

  datatype Reply =
    | ErrorReply(text: string)
    | AnalysisEmbed(title: string, description: string, fields: seq<(string, string)>)
    | ExplanationEmbeds(embeds: seq<(string, string)>)
    | CommandFailed

  /** The field of one category, present only when the list is not empty. */
  function CategoryField(name: string, items: seq<string>): (fields: seq<(string, string)>)
    ensures |fields| <= 1
    ensures fields != [] <==> items != []
  {
    if items != [] then [(name, Bulleted(items))] else []
  }

  /** The review field names, with their emoji prefixes as the source file spells them. */
  const SecurityLabel: string := "\U{F0}\U{178}\U{201D}\U{2019} Security Issues"
  const PerformanceLabel: string := "\U{E2}\U{161}\U{A1} Performance Tips"
  const StyleLabel: string := "\U{E2}\U{153}\U{A8} Style Suggestions"

  /** The body of `review` after the error test. */
  function ReviewEmbed(results: Serve.AnalysisResults): (r: Reply)
    ensures r.AnalysisEmbed? && r.description == results.summary
  {
    var fields :=
      match results.categories
      case None => []
      case Some(c) =>
        CategoryField(SecurityLabel, c.securityIssues)
        + CategoryField(PerformanceLabel, c.performanceTips)
        + CategoryField(StyleLabel, c.styleSuggestions);
    AnalysisEmbed("Code Review Results", results.summary, fields)
  }

  /** The body of `optimize` and `improve` after the error test: one details field, if there are details. */
  function DetailsEmbed(title: string, fieldName: string, results: Serve.AnalysisResults): (r: Reply)
    ensures r.AnalysisEmbed? && r.description == results.summary
    ensures |r.fields| <= 1
  {
    var details := Bulleted(results.details);
    AnalysisEmbed(title, results.summary, if details != "" then [(fieldName, details)] else [])
  }

  /** `optimize` and `improve` show the details field exactly when the analysis has detail lines. */
  lemma DetailsFieldIff(title: string, fieldName: string, results: Serve.AnalysisResults)
    ensures DetailsEmbed(title, fieldName, results).fields != [] <==> results.details != []
  {
    BulletedEmpty(results.details);
  }

  const ExplanationChunk: nat := 1900

  /** The embeds of `explain`: the explanation in 1900-character chunks, the first titled apart. */
  function ExplanationReply(explanation: string): (r: Reply)
  {
    var chunks := Chunks(explanation, ExplanationChunk);
    ExplanationEmbeds(seq(|chunks|, i requires 0 <= i < |chunks| =>
      (if i == 0 then "Code Explanation" else "Code Explanation (continued)", chunks[i])))
  }

  /**
   * The descriptions of the explanation embeds concatenate back to the
   * explanation, none is longer than 1900 characters and all but the last
   * are exactly that long; only the first has the plain title.
   */
  lemma ExplanationReplySpec(explanation: string)
    ensures var es := ExplanationReply(explanation).embeds;
      && Concat(seq(|es|, i requires 0 <= i < |es| => es[i].1)) == explanation
      && (forall i :: 0 <= i < |es| ==> 0 < |es[i].1| <= 1900)
      && (forall i :: 0 <= i < |es| - 1 ==> |es[i].1| == 1900)
      && (forall i :: 0 <= i < |es| ==> (es[i].0 == "Code Explanation" <==> i == 0))
  {
    var chunks := Chunks(explanation, ExplanationChunk);
    var es := ExplanationReply(explanation).embeds;
    ChunksSpec(explanation, ExplanationChunk);
    assert seq(|es|, i requires 0 <= i < |es| => es[i].1) == chunks;
  }

  /** How one code command answers, given what the model service call came back with. */
  function CodeCommandReply(command: CodeCommand, outcome: ApiOutcome): (r: Reply)
    ensures HasError(CallModelApi(outcome)) ==>
      r == ErrorReply("Sorry, I encountered an error: " + FieldText(CallModelApi(outcome)["error"]))
    ensures !HasError(CallModelApi(outcome)) && command != Explain && outcome.body.Analysis? ==>
      r.AnalysisEmbed? && r.description == outcome.body.results.summary
    ensures !HasError(CallModelApi(outcome)) && command == Explain && outcome.body.GeneratedText? ==>
      r == ExplanationReply(outcome.body.text)
  {
    var response := CallModelApi(outcome);
    if HasError(response) then
      ErrorReply("Sorry, I encountered an error: " + FieldText(response["error"]))
    else
      match command
      case Explain =>
        (match response["generated_text"]
         case Text(explanation) => ExplanationReply(explanation)
         case _ => CommandFailed)
      case _ =>
        match response["analysis_results"]
        case Results(results) =>
          (match command
           case Review => ReviewEmbed(results)
           case Optimize => DetailsEmbed("Code Optimization Suggestions", "Optimization Details", results)
           case Improve => DetailsEmbed("Code Improvement Suggestions", "Improvement Details", results))
        case _ => CommandFailed
  }

  /** The review of a successful analysis lists exactly the non-empty categories, in order. */
  lemma ReviewFields(results: Serve.AnalysisResults, c: Serve.Categories)
    requires results.categories == Some(c)
    ensures |ReviewEmbed(results).fields| ==
      (if c.securityIssues != [] then 1 else 0) + (if c.performanceTips != [] then 1 else 0)
      + (if c.styleSuggestions != [] then 1 else 0)
  {
  }

  // ---------------------------------------------------------------------
  // The per-user cooldown of `ask`
  // ---------------------------------------------------------------------

  const CooldownSeconds: int := 60

  /** A user is refused while the end of their cooldown is later than now. */
  predicate Refused(cooldowns: map<int, int>, user: int, now: int)
  {
    user in cooldowns && cooldowns[user] > now
  }

  /** After an answer at `t`, the user is refused exactly until `t + 60`. */
  lemma CooldownWindow(cooldowns: map<int, int>, user: int, t: int, now: int)
    ensures Refused(cooldowns[user := t + CooldownSeconds], user, now) <==> now < t + 60
  {
  }

  /** A user's cooldown never affects another user's. */
  lemma CooldownPerUser(cooldowns: map<int, int>, user: int, other: int, t: int, now: int)
    requires other != user
    ensures Refused(cooldowns[user := t + CooldownSeconds], other, now) <==> Refused(cooldowns, other, now)
  {
  }

  datatype AskReply = OnCooldown | Answered(text: string) | ProviderRaised

  class Assistant {
    var cooldowns: map<int, int>

    constructor ()
      ensures cooldowns == map[]
    {
      cooldowns := map[];
    }

    /**
     * `ask` and `ask_slash` by `user`, checked at `now` and answered at
     * `answeredAt`; a provider that raises ends the command before the
     * cooldown is set.
     */
    method Ask(user: int, now: int, answeredAt: int, claude: Option<string>, gemini: Option<string>)
      returns (reply: AskReply)
      modifies this
      ensures Refused(old(cooldowns), user, now) ==> reply == OnCooldown && cooldowns == old(cooldowns)
      ensures !Refused(old(cooldowns), user, now) && claude.Some? && gemini.Some? ==>
        reply == Answered("Claude: " + claude.value + "\nGemini: " + gemini.value)
        && cooldowns == old(cooldowns)[user := answeredAt + CooldownSeconds]
      ensures !Refused(old(cooldowns), user, now) && (claude.None? || gemini.None?) ==>
        reply == ProviderRaised && cooldowns == old(cooldowns)
    {
      if user in cooldowns && cooldowns[user] > now {
        return OnCooldown;
      }
      if claude.None? || gemini.None? {
        return ProviderRaised;
      }
      reply := Answered("Claude: " + claude.value + "\nGemini: " + gemini.value);
      cooldowns := cooldowns[user := answeredAt + CooldownSeconds];
    }
  }
}
