/**
 * The inference service: the prompt chosen by the analysis type, the
 * structuring of the generated analysis into a summary, details and
 * categories, and the endpoints' guard against an uninitialised server.
 * The tokenizer and the model's generation are a parameter: the generated
 * text, or the message of the exception they raised.
 */
module Serve {
  import opened Wrappers
  import opened Text

  // ---------------------------------------------------------------------
  // Prompt selection
  // ---------------------------------------------------------------------

  datatype PromptKind = SecurityPrompt | PerformancePrompt | StylePrompt | ComprehensivePrompt

  /** The template of an analysis type; any type but the three named ones is comprehensive. */
  function KindOf(analysisType: string): (k: PromptKind)
    ensures k == SecurityPrompt <==> analysisType == "security"
    ensures k == PerformancePrompt <==> analysisType == "performance"
    ensures k == StylePrompt <==> analysisType == "style"
  {
    if analysisType == "security" then SecurityPrompt
    else if analysisType == "performance" then PerformancePrompt
    else if analysisType == "style" then StylePrompt
    else ComprehensivePrompt
  }

  function Header(k: PromptKind): string
  {
    match k
    case SecurityPrompt => "Analyze this code for security issues:\n\n"
    case PerformancePrompt => "Analyze this code for performance improvements:\n\n"
    case StylePrompt => "Analyze this code for style and best practices:\n\n"
    case ComprehensivePrompt => "Analyze this code comprehensively:\n\n"
  }

  function Footer(k: PromptKind): string
  {
    match k
    case SecurityPrompt => "\n\nSecurity Analysis:"
    case PerformancePrompt => "\n\nPerformance Analysis:"
    case StylePrompt => "\n\nStyle Analysis:"
    case ComprehensivePrompt => "\n\nAnalysis:"
  }

  /** The prompt `ModelServer.analyze_code` gives the model. */
  function AnalysisPrompt(analysisType: string, code: string): (prompt: string)
  {
    Header(KindOf(analysisType)) + code + Footer(KindOf(analysisType))
  }

  /** The code sits unchanged between the template's header and footer. */
  lemma PromptEmbedsCode(analysisType: string, code: string)
    ensures var k := KindOf(analysisType);
      var prompt := AnalysisPrompt(analysisType, code);
      && StartsWith(prompt, Header(k))
      && EndsWith(prompt, Footer(k))
      && prompt[|Header(k)|..|prompt| - |Footer(k)|] == code
  {
    var k := KindOf(analysisType);
    var prompt := AnalysisPrompt(analysisType, code);
    assert prompt[..|Header(k)|] == Header(k);
    assert prompt[|prompt| - |Footer(k)|..] == Footer(k);
  }

  // ---------------------------------------------------------------------
  // Categorisation
  // ---------------------------------------------------------------------

  datatype Category = SecurityIssue | PerformanceTip | StyleSuggestion | Uncategorised

  /** The first keyword that the lower-cased line contains, in the order security, performance, style. */
  function CategoryOf(line: string): (c: Category)
    ensures c == SecurityIssue <==> Contains(Lower(line), "security")
    ensures c == PerformanceTip <==> !Contains(Lower(line), "security") && Contains(Lower(line), "performance")
    ensures c == StyleSuggestion <==>
      !Contains(Lower(line), "security") && !Contains(Lower(line), "performance") && Contains(Lower(line), "style")
  {
    var lower := Lower(line);
    if Contains(lower, "security") then SecurityIssue
    else if Contains(lower, "performance") then PerformanceTip
    else if Contains(lower, "style") then StyleSuggestion
    else Uncategorised
  }

  /** The lines of one category, in their original order. */
  function LinesOf(lines: seq<string>, c: Category): (r: seq<string>)
    ensures |r| <= |lines|
    ensures forall x :: x in r ==> x in lines && CategoryOf(x) == c
  {
    if lines == [] then []
    else
      var init := LinesOf(lines[..|lines| - 1], c);
      if CategoryOf(Last(lines)) == c then init + [Last(lines)] else init
  }

  lemma {:induction false} LinesOfSubsequence(lines: seq<string>, c: Category)
    ensures IsSubsequence(LinesOf(lines, c), lines)
    decreases |lines|
  {
    if lines != [] {
      var init := lines[..|lines| - 1];
      LinesOfSubsequence(init, c);
      if CategoryOf(Last(lines)) == c {
        var r := LinesOf(init, c) + [Last(lines)];
        assert r[..|r| - 1] == LinesOf(init, c);
      } else {
        SubsequenceDropLast(LinesOf(init, c), init, Last(lines));
        assert init + [Last(lines)] == lines;
      }
    }
  }

  /** Every line is in exactly one of the three lists or in none: the sizes add up to the line count. */
  lemma {:induction false} CategoriesPartition(lines: seq<string>)
    ensures |LinesOf(lines, SecurityIssue)| + |LinesOf(lines, PerformanceTip)|
      + |LinesOf(lines, StyleSuggestion)| + |LinesOf(lines, Uncategorised)| == |lines|
    decreases |lines|
  {
    if lines != [] {
      CategoriesPartition(lines[..|lines| - 1]);
    }
  }

  /** A line of the analysis is listed under a category exactly when it has that category. */
  lemma {:induction false} LinesOfMembers(lines: seq<string>, c: Category, x: string)
    ensures x in LinesOf(lines, c) <==> x in lines && CategoryOf(x) == c
    decreases |lines|
  {
    if lines != [] {
      LinesOfMembers(lines[..|lines| - 1], c, x);
      assert lines == lines[..|lines| - 1] + [Last(lines)];
    }
  }

  datatype Categories = Categories(
    securityIssues: seq<string>,
    performanceTips: seq<string>,
    styleSuggestions: seq<string>)

  /** The categorising loop over the lines of the analysis. */
  method Categorise(lines: seq<string>) returns (r: Categories)
    ensures r.securityIssues == LinesOf(lines, SecurityIssue)
    ensures r.performanceTips == LinesOf(lines, PerformanceTip)
    ensures r.styleSuggestions == LinesOf(lines, StyleSuggestion)
  {
    var security, performance, style := [], [], [];
    for i := 0 to |lines|
      invariant security == LinesOf(lines[..i], SecurityIssue)
      invariant performance == LinesOf(lines[..i], PerformanceTip)
      invariant style == LinesOf(lines[..i], StyleSuggestion)
    {
      assert lines[..i + 1][..i] == lines[..i];
      var lower := Lower(lines[i]);
      if Contains(lower, "security") {
        security := security + [lines[i]];
      } else if Contains(lower, "performance") {
        performance := performance + [lines[i]];
      } else if Contains(lower, "style") {
        style := style + [lines[i]];
      }
    }
    assert lines[..|lines|] == lines;
    r := Categories(security, performance, style);
  }

  // ---------------------------------------------------------------------
  // The structured result
  // ---------------------------------------------------------------------

  datatype AnalysisResults = AnalysisResults(
    analysisType: string,
    summary: string,
    details: seq<string>,
    categories: Option<Categories>)

  datatype ModelResponse =
    | GeneratedText(text: string)
    | Analysis(results: AnalysisResults)
    | ModelError(error: string)

  /**
   * The analysis of `text` for `analysisType`: the first line is the summary
   * and the rest the details, and the three category lists are present
   * exactly for the type "all", each holding the lines of its category.
   */
  predicate AnalysisOf(analysisType: string, text: string, response: ModelResponse)
  {
    var lines := Split(text, "\n");
    && response.Analysis?
    && response.results.analysisType == analysisType
    && [response.results.summary] + response.results.details == lines
    && (response.results.categories.Some? <==> analysisType == "all")
    && (analysisType == "all" ==>
          response.results.categories == Some(Categories(
            LinesOf(lines, SecurityIssue), LinesOf(lines, PerformanceTip), LinesOf(lines, StyleSuggestion))))
  }

  /**
   * `ModelServer.analyze_code` around the generation that produced the
   * analysis text, or raised with a message.
   */
  method AnalyzeCode(analysisType: string, generation: Result<string, string>) returns (response: ModelResponse)
    ensures generation.Err? ==> response == ModelError(generation.error)
    ensures generation.Ok? ==> AnalysisOf(analysisType, generation.value, response)
  {
    if generation.Err? {
      return ModelError(generation.error);
    }
    var text := generation.value;
    var lines := Split(text, "\n");
    var categories := None;
    if analysisType == "all" {
      var c := Categorise(lines);
      categories := Some(c);
    }
    response := Analysis(AnalysisResults(analysisType, lines[0], lines[1..], categories));
  }

  /** The summary and the details, joined with newlines, are the whole analysis text. */
  lemma SummaryAndDetails(text: string)
    ensures var lines := Split(text, "\n");
      Join([lines[0]] + lines[1..], "\n") == text
  {
    var lines := Split(text, "\n");
    assert [lines[0]] + lines[1..] == lines;
    JoinSplit(text, "\n");
  }

  // ---------------------------------------------------------------------
  // Endpoints
  // ---------------------------------------------------------------------

  datatype HttpError = HttpError(status: int, detail: string)

  const ServiceUnavailable := HttpError(503, "Model server not initialized")

  /** `POST /generate`: 503 until startup has created the model server. */
  function GenerateEndpoint(initialised: bool, generation: Result<string, string>): (r: Result<ModelResponse, HttpError>)
    ensures !initialised <==> r == Err(ServiceUnavailable)
    ensures initialised && generation.Ok? ==> r == Ok(GeneratedText(generation.value))
    ensures initialised && generation.Err? ==> r == Ok(ModelError(generation.error))
  {
    if !initialised then Err(ServiceUnavailable)
    else match generation
      case Ok(text) => Ok(GeneratedText(text))
      case Err(message) => Ok(ModelError(message))
  }

  /** `POST /analyze`: 503 until startup has created the model server. */
  method AnalyzeEndpoint(initialised: bool, analysisType: string, generation: Result<string, string>)
    returns (r: Result<ModelResponse, HttpError>)
    ensures !initialised <==> r == Err(ServiceUnavailable)
    ensures initialised && generation.Err? ==> r == Ok(ModelError(generation.error))
    ensures initialised && generation.Ok? ==> r.Ok? && AnalysisOf(analysisType, generation.value, r.value)
  {
    if !initialised {
      return Err(ServiceUnavailable);
    }
    var response := AnalyzeCode(analysisType, generation);
    r := Ok(response);
  }
}
