/**
 * The premium code review cog: the clean-up of the code argument of
 * `review`, and the embed fields of `review` and `optimize` built from a
 * `CodeAnalysis.AnalysisResult`. `review` analyses `CleanInput(code)`;
 * `optimize` analyses the argument as given.
 */
module CodeReview {
  import opened Text
  import CodeAnalysis

  const Backtick: set<char> := {'`'}
  const LanguageLine: string := "python\n"

  /**
   * `code.strip('`').strip()`, then a leading `python` language line
   * (seven characters) is dropped once.
   */
  function CleanInput(code: string): (r: string)
  {
    var t := Strip(StripChars(code, Backtick));
    if StartsWith(t, LanguageLine) then t[|LanguageLine|..] else t
  }

  /** A Discord code block with a Python language line gives back its body. */
  lemma CleanInputRoundTrip(fence: string, body: string, closing: string)
    requires forall i :: 0 <= i < |fence| ==> fence[i] == '`'
    requires forall i :: 0 <= i < |closing| ==> closing[i] == '`'
    requires body != [] && Last(body) !in Whitespace && Last(body) != '`'
    ensures CleanInput(fence + LanguageLine + body + closing) == body
  {
    var code := fence + LanguageLine + body + closing;
    var m := LanguageLine + body;
    LanguageBlock(body);
    assert code == fence + m + closing;
    StripCharsFrame(fence, m, closing, Backtick);
    assert StripChars(code, Backtick) == m;
    StripCharsFrame([], m, [], Whitespace);
    assert [] + m + [] == m;
    assert Strip(m) == m;
    assert m[|LanguageLine|..] == body;
  }

  /** The language line and a body that ends outside both character sets. */
  lemma LanguageBlock(body: string)
    requires body != [] && Last(body) !in Whitespace && Last(body) != '`'
    ensures var m := LanguageLine + body;
      && m[0] == 'p' && m[0] !in Whitespace && m[0] !in Backtick
      && Last(m) == Last(body) && Last(m) !in Backtick
      && StartsWith(m, LanguageLine)
  {
    var m := LanguageLine + body;
    assert m[..|LanguageLine|] == LanguageLine;
  }

  /** Code without backticks or surrounding whitespace and without a language line is kept as it is. */
  lemma CleanInputKeeps(code: string)
    requires code != [] && code[0] !in Whitespace && Last(code) !in Whitespace
    requires forall i :: 0 <= i < |code| ==> code[i] != '`'
    requires !StartsWith(code, LanguageLine)
    ensures CleanInput(code) == code
  {
    StripCharsNone(code, Backtick);
    StripCharsFrame([], code, [], Whitespace);
    assert [] + code + [] == code;
  }

  /** The label after the complexity score. */
  function ComplexityLabel(complexity: int): (tag: string)
    ensures tag == "(High)" <==> complexity > 7
    ensures tag == "(Medium)" <==> 4 < complexity <= 7
    ensures tag == "(Good)" <==> complexity <= 4
  {
    if complexity > 7 then "(High)" else if complexity > 4 then "(Medium)" else "(Good)"
  }

  /** `"\n".join(f"• {x}" for x in items)`. */
  function Bulleted(items: seq<string>): string
  {
    Join(seq(|items|, k requires 0 <= k < |items| => "\U{2022} " + items[k]), "\n")
  }

  type Field = (string, string)

  const SecurityTitle: string := "\U{26A0}\U{FE0F} Security Issues"

  /** The four optional sections of `review`, in the order they are added. */
  function Sections(a: CodeAnalysis.AnalysisResult): seq<(string, seq<string>)>
  {
    [ (SecurityTitle, a.securityIssues),
      ("Best Practices", a.bestPractices),
      ("Performance Tips", a.performanceTips),
      ("Suggestions", a.suggestions) ]
  }

  /** The sections whose lists are not empty, in order. */
  function NonEmpty(sections: seq<(string, seq<string>)>): (r: seq<(string, seq<string>)>)
    ensures forall s :: s in r <==> s in sections && s.1 != []
  {
    if sections == [] then []
    else
      var init := NonEmpty(sections[..|sections| - 1]);
      assert sections == sections[..|sections| - 1] + [Last(sections)];
      if Last(sections).1 != [] then init + [Last(sections)] else init
  }

  lemma {:induction false} NonEmptyInOrder(sections: seq<(string, seq<string>)>)
    ensures IsSubsequence(NonEmpty(sections), sections)
    decreases |sections|
  {
    if sections != [] {
      var init := sections[..|sections| - 1];
      NonEmptyInOrder(init);
      assert init + [Last(sections)] == sections;
      if Last(sections).1 != [] {
        var r := NonEmpty(init) + [Last(sections)];
        assert r[..|r| - 1] == NonEmpty(init);
      } else {
        SubsequenceDropLast(NonEmpty(init), init, Last(sections));
      }
    }
  }

  function AsField(section: (string, seq<string>)): Field
  {
    (section.0, Bulleted(section.1))
  }

  /** The fields of the `review` embed: the score with its label, then the non-empty sections. */
  function ReviewFields(a: CodeAnalysis.AnalysisResult): (fields: seq<Field>)
    ensures |fields| >= 1
    ensures fields[0] == ("Complexity Score", IntToString(a.complexity) + "/10 " + ComplexityLabel(a.complexity))
  {
    var shown := NonEmpty(Sections(a));
    [("Complexity Score", IntToString(a.complexity) + "/10 " + ComplexityLabel(a.complexity))]
      + seq(|shown|, k requires 0 <= k < |shown| => AsField(shown[k]))
  }

  /**
   * A section of `review` is shown exactly when its list is non-empty, and
   * the shown sections keep the order security, best practices,
   * performance, suggestions.
   */
  lemma ReviewSections(a: CodeAnalysis.AnalysisResult, title: string, items: seq<string>)
    ensures (title, items) in NonEmpty(Sections(a)) <==> (title, items) in Sections(a) && items != []
    ensures IsSubsequence(NonEmpty(Sections(a)), Sections(a))
    ensures |ReviewFields(a)| == 1 + |NonEmpty(Sections(a))|
  {
    NonEmptyInOrder(Sections(a));
  }

  const NoOptimization: string := "No obvious optimization opportunities found. Your code looks efficient!"

  /** The single field of `optimize`: the performance tips if there are any, else the no-optimisation note. */
  function OptimizeFields(a: CodeAnalysis.AnalysisResult): (fields: seq<Field>)
    ensures |fields| == 1
    ensures a.performanceTips != [] ==> fields[0] == ("Performance Improvements", Bulleted(a.performanceTips))
    ensures a.performanceTips == [] ==> fields[0] == ("Analysis Result", NoOptimization)
  {
    if a.performanceTips != [] then [("Performance Improvements", Bulleted(a.performanceTips))]
    else [("Analysis Result", NoOptimization)]
  }
}
