/**
 * The heuristic code analyser. The parsed program is the sequence of nodes
 * that `ast.walk` visits, each reduced to what the analyser looks at; a
 * regular-expression search is the substring test it amounts to. An
 * exception that escapes `analyze_code` is an `Err` carrying its message.
 */
module CodeAnalysis {
  import opened Wrappers
  import opened Text

  /** The part of an `ast` node the analyser inspects. */
  datatype Node =
    | If | While | For | ExceptHandler
    | BoolOp(values: nat)                       // `len(node.values)`
    | FunctionDef(name: string, bodyLength: nat, documented: bool, annotatedReturn: bool)
    | ClassDef(name: string, documented: bool)
    | BinOp(isAdd: bool, stringOperand: bool)   // `isinstance(node.op, ast.Add)`; an operand is a string literal
    | OtherNode

  /** `ast.parse`: either the walk of the tree or a `SyntaxError`. */
  datatype Parse = Parsed(walk: seq<Node>) | SyntaxError

  datatype AnalysisResult = AnalysisResult(
    complexity: int,
    suggestions: seq<string>,
    securityIssues: seq<string>,
    bestPractices: seq<string>,
    performanceTips: seq<string>)

  const MaxLineLength: nat := 80
  const MaxFunctionBody: nat := 15

  /** Every boolean operation of a parsed tree has at least two operands. */
  predicate WellFormed(walk: seq<Node>)
  {
    forall k :: 0 <= k < |walk| && walk[k].BoolOp? ==> walk[k].values >= 2
  }

  // ---------------------------------------------------------------------
  // Complexity
  // ---------------------------------------------------------------------

  /** What one node adds to the cyclomatic complexity. */
  function Weight(n: Node): int
  {
    match n
    case If => 1
    case While => 1
    case For => 1
    case ExceptHandler => 1
    case BoolOp(values) => values - 1
    case _ => 0
  }

  predicate Branching(n: Node)
  {
    n.If? || n.While? || n.For? || n.ExceptHandler? || n.BoolOp?
  }

  /** The decision points of a walk, counted from its front. */
  function DecisionPoints(walk: seq<Node>): int
  {
    if walk == [] then 0 else DecisionPoints(walk[..|walk| - 1]) + Weight(walk[|walk| - 1])
  }

  /**
   * In a well-formed tree the decision points are never negative, and any
   * branching node makes them positive.
   */
  lemma {:induction false} DecisionPointsBounds(walk: seq<Node>)
    requires WellFormed(walk)
    ensures DecisionPoints(walk) >= 0
    ensures (exists k :: 0 <= k < |walk| && Branching(walk[k])) ==> DecisionPoints(walk) >= 1
  {
    if walk != [] {
      var init := walk[..|walk| - 1];
      assert WellFormed(init) by {
        forall k | 0 <= k < |init| && init[k].BoolOp? ensures init[k].values >= 2 {
          assert init[k] == walk[k];
        }
      }
      DecisionPointsBounds(init);
      if exists k :: 0 <= k < |walk| && Branching(walk[k]) {
        var k :| 0 <= k < |walk| && Branching(walk[k]);
        if k < |walk| - 1 {
          assert init[k] == walk[k];
        }
      }
    }
  }

  /** `_calculate_complexity`: one plus the decision points. */
  method CalculateComplexity(walk: seq<Node>) returns (complexity: int)
    ensures complexity == 1 + DecisionPoints(walk)
  {
    complexity := 1;
    for i := 0 to |walk|
      invariant complexity == 1 + DecisionPoints(walk[..i])
    {
      assert walk[..i + 1][..i] == walk[..i];
      match walk[i]
      case If => complexity := complexity + 1;
      case While => complexity := complexity + 1;
      case For => complexity := complexity + 1;
      case ExceptHandler => complexity := complexity + 1;
      case BoolOp(values) => complexity := complexity + values - 1;
      case _ =>
    }
    assert walk[..|walk|] == walk;
  }

  // ---------------------------------------------------------------------
  // Advice collected over the walk
  // ---------------------------------------------------------------------

  /** The advice that `advice` gives for each node, in walk order. */
  function Collect(walk: seq<Node>, advice: Node -> seq<string>): seq<string>
  {
    if walk == [] then [] else Collect(walk[..|walk| - 1], advice) + advice(walk[|walk| - 1])
  }

  /** A piece of collected advice comes from some node, and every node's advice is collected. */
  lemma {:induction false} CollectMembers(walk: seq<Node>, advice: Node -> seq<string>, x: string)
    ensures x in Collect(walk, advice) <==> exists k :: 0 <= k < |walk| && x in advice(walk[k])
  {
    if walk != [] {
      var init := walk[..|walk| - 1];
      CollectMembers(init, advice, x);
      if exists k :: 0 <= k < |walk| && x in advice(walk[k]) {
        var k :| 0 <= k < |walk| && x in advice(walk[k]);
        if k < |walk| - 1 {
          assert init[k] == walk[k];
        }
      }
      if exists k :: 0 <= k < |init| && x in advice(init[k]) {
        var k :| 0 <= k < |init| && x in advice(init[k]);
        assert walk[k] == init[k];
      }
    }
  }

  /** The "too long" suggestion for a function with a body over 15 statements. */
  function TooLong(n: Node): seq<string>
  {
    if n.FunctionDef? && n.bodyLength > MaxFunctionBody then
      ["Function '" + n.name + "' is too long. Consider breaking it down."]
    else []
  }

  /** `node.__class__.__name__.lower()` for the two node kinds that have docstrings. */
  function KindName(n: Node): string
  {
    if n.FunctionDef? then "functiondef" else "classdef"
  }

  /** The docstring advice for a function or class without a docstring. */
  function MissingDocstring(n: Node): seq<string>
  {
    if (n.FunctionDef? || n.ClassDef?) && !n.documented then
      ["Add docstring to " + KindName(n) + " '" + n.name + "'"]
    else []
  }

  /**
   * The type-hint advice. The source also asks whether some argument is an
   * `AnnAssign` node, which an argument never is, so only the return
   * annotation decides.
   */
  function MissingTypeHints(n: Node): seq<string>
  {
    if n.FunctionDef? && !n.annotatedReturn then
      ["Consider adding type hints to function '" + n.name + "'"]
    else []
  }

  /** Collects the advice of one kind over the walk, node by node. */
  method CollectAdvice(walk: seq<Node>, advice: Node -> seq<string>) returns (out: seq<string>)
    ensures out == Collect(walk, advice)
  {
    out := [];
    for i := 0 to |walk|
      invariant out == Collect(walk[..i], advice)
    {
      assert walk[..i + 1][..i] == walk[..i];
      out := out + advice(walk[i]);
    }
    assert walk[..|walk|] == walk;
  }

  /** Every function with more than 15 statements is named in a "too long" suggestion. */
  lemma TooLongReported(walk: seq<Node>, k: nat)
    requires k < |walk| && walk[k].FunctionDef? && walk[k].bodyLength > MaxFunctionBody
    ensures "Function '" + walk[k].name + "' is too long. Consider breaking it down." in Collect(walk, TooLong)
  {
    CollectMembers(walk, TooLong, "Function '" + walk[k].name + "' is too long. Consider breaking it down.");
  }

  /** Every function or class without a docstring gets an "Add docstring" entry. */
  lemma MissingDocstringReported(walk: seq<Node>, k: nat)
    requires k < |walk| && (walk[k].FunctionDef? || walk[k].ClassDef?) && !walk[k].documented
    ensures "Add docstring to " + KindName(walk[k]) + " '" + walk[k].name + "'" in Collect(walk, MissingDocstring)
  {
    CollectMembers(walk, MissingDocstring, "Add docstring to " + KindName(walk[k]) + " '" + walk[k].name + "'");
  }

  /** A function name gets a type-hint entry exactly when some function of that name has no return annotation. */
  lemma TypeHintsIff(walk: seq<Node>, name: string)
    ensures "Consider adding type hints to function '" + name + "'" in Collect(walk, MissingTypeHints) <==>
      exists k :: 0 <= k < |walk| && walk[k].FunctionDef? && walk[k].name == name && !walk[k].annotatedReturn
  {
    var x := "Consider adding type hints to function '" + name + "'";
    CollectMembers(walk, MissingTypeHints, x);
    if x in Collect(walk, MissingTypeHints) {
      var j :| 0 <= j < |walk| && x in MissingTypeHints(walk[j]);
      NamedMessage("Consider adding type hints to function '", name, walk[j].name, "'");
    }
  }

  /** A message with a fixed frame determines the name inside it. */
  lemma NamedMessage(prefix: string, a: string, b: string, suffix: string)
    requires prefix + a + suffix == prefix + b + suffix
    ensures a == b
  {
    var m := prefix + a + suffix;
    assert |a| == |b|;
    assert a == m[|prefix|..|prefix| + |a|];
    assert b == (prefix + b + suffix)[|prefix|..|prefix| + |b|];
  }

  // ---------------------------------------------------------------------
  // Line length
  // ---------------------------------------------------------------------

  /** The 1-based numbers of the lines longer than 80 characters, in order. */
  function LongLineNumbers(lines: seq<string>): (nums: seq<nat>)
    ensures forall k :: 0 <= k < |nums| ==> 1 <= nums[k] <= |lines| && |lines[nums[k] - 1]| > MaxLineLength
    ensures forall k, l :: 0 <= k < l < |nums| ==> nums[k] < nums[l]
    ensures forall i :: 0 <= i < |lines| && |lines[i]| > MaxLineLength ==> i + 1 in nums
  {
    if lines == [] then []
    else
      var init := lines[..|lines| - 1];
      var before := LongLineNumbers(init);
      assert forall i :: 0 <= i < |init| ==> init[i] == lines[i];
      before + (if |lines[|lines| - 1]| > MaxLineLength then [|lines|] else [])
  }

  function LineMessage(number: nat): string
  {
    "Line " + NatToString(number) + " exceeds " + NatToString(MaxLineLength) + " characters"
  }

  function LineMessages(nums: seq<nat>): (msgs: seq<string>)
    ensures |msgs| == |nums|
    ensures forall k :: 0 <= k < |nums| ==> msgs[k] == LineMessage(nums[k])
  {
    seq(|nums|, k requires 0 <= k < |nums| => LineMessage(nums[k]))
  }

  lemma LineMessagesAppend(nums: seq<nat>, n: nat)
    ensures LineMessages(nums + [n]) == LineMessages(nums) + [LineMessage(n)]
  {
  }

  /** The line-length loop of `_generate_suggestions`, with `enumerate(lines, 1)`. */
  method LongLineSuggestions(lines: seq<string>) returns (suggestions: seq<string>)
    ensures suggestions == LineMessages(LongLineNumbers(lines))
  {
    suggestions := [];
    for i := 0 to |lines|
      invariant suggestions == LineMessages(LongLineNumbers(lines[..i]))
    {
      assert lines[..i + 1][..i] == lines[..i];
      if |lines[i]| > MaxLineLength {
        LineMessagesAppend(LongLineNumbers(lines[..i]), i + 1);
        suggestions := suggestions + [LineMessage(i + 1)];
      }
    }
    assert lines[..|lines|] == lines;
  }

  // ---------------------------------------------------------------------
  // Security patterns
  // ---------------------------------------------------------------------

  /** `(?<![\w])` with `\w` read as ASCII letters, digits and underscore. */
  predicate IsWordChar(c: char)
  {
    ('a' <= c <= 'z') || ('A' <= c <= 'Z') || ('0' <= c <= '9') || c == '_'
  }

  datatype Pattern =
    | Literal(text: string)        // a plain escaped literal
    | NotAfterWord(text: string)   // a literal not preceded by a word character

  predicate Matches(p: Pattern, code: string)
  {
    match p
    case Literal(t) => Contains(code, t)
    case NotAfterWord(t) => exists i :: 0 <= i <= |code| && OccursAt(code, t, i) && (i == 0 || !IsWordChar(code[i - 1]))
  }

  /** The security patterns and their messages, in table order. */
  const SecurityPatterns: seq<(Pattern, string)> := [
    (Literal("eval("), "Avoid using eval() as it can be dangerous"),
    (Literal("exec("), "Avoid using exec() for security reasons"),
    (NotAfterWord("input("), "Ensure input validation is implemented"),
    (Literal("os.system("), "Use subprocess module instead of os.system")
  ]

  /** The messages of the patterns in `table` that match, in table order. */
  function MatchedMessages(table: seq<(Pattern, string)>, code: string): seq<string>
  {
    if table == [] then []
    else
      var init := table[..|table| - 1];
      var entry := table[|table| - 1];
      MatchedMessages(init, code) + (if Matches(entry.0, code) then [entry.1] else [])
  }

  /** A message of a table with distinct messages is reported exactly when its pattern matches, and at most once. */
  lemma {:induction false} MatchedMessagesSpec(table: seq<(Pattern, string)>, code: string, k: nat)
    requires k < |table|
    requires forall i, j :: 0 <= i < j < |table| ==> table[i].1 != table[j].1
    ensures table[k].1 in MatchedMessages(table, code) <==> Matches(table[k].0, code)
    ensures multiset(MatchedMessages(table, code))[table[k].1] <= 1
  {
    var init := table[..|table| - 1];
    var last := table[|table| - 1];
    assert forall i :: 0 <= i < |init| ==> init[i] == table[i];
    if k < |table| - 1 {
      MatchedMessagesSpec(init, code, k);
      assert table[k].1 != last.1;
    } else {
      NotInMatched(init, code, last.1);
    }
  }

  lemma {:induction false} NotInMatched(table: seq<(Pattern, string)>, code: string, m: string)
    requires forall i :: 0 <= i < |table| ==> table[i].1 != m
    ensures m !in MatchedMessages(table, code)
  {
    if table != [] {
      var init := table[..|table| - 1];
      assert forall i :: 0 <= i < |init| ==> init[i] == table[i];
      NotInMatched(init, code, m);
    }
  }

  /** `_check_security`: the message of each matching pattern, in table order. */
  method CheckSecurity(code: string) returns (issues: seq<string>)
    ensures issues == MatchedMessages(SecurityPatterns, code)
  {
    issues := [];
    for i := 0 to |SecurityPatterns|
      invariant issues == MatchedMessages(SecurityPatterns[..i], code)
    {
      assert SecurityPatterns[..i + 1][..i] == SecurityPatterns[..i];
      var (pattern, message) := SecurityPatterns[i];
      if Matches(pattern, code) {
        issues := issues + [message];
      }
    }
    assert SecurityPatterns[..|SecurityPatterns|] == SecurityPatterns;
  }

  /** Each security message appears at most once, exactly when its pattern matches. */
  lemma SecurityIssuesSpec(code: string, k: nat)
    requires k < |SecurityPatterns|
    ensures SecurityPatterns[k].1 in MatchedMessages(SecurityPatterns, code) <==> Matches(SecurityPatterns[k].0, code)
    ensures multiset(MatchedMessages(SecurityPatterns, code))[SecurityPatterns[k].1] <= 1
  {
    MatchedMessagesSpec(SecurityPatterns, code, k);
  }

  // ---------------------------------------------------------------------
  // The analysis as a whole
  // ---------------------------------------------------------------------

  /** `_generate_suggestions`: the long lines in order, then the long functions in walk order. */
  method GenerateSuggestions(code: string, walk: seq<Node>) returns (suggestions: seq<string>)
    ensures suggestions == LineMessages(LongLineNumbers(SplitLines(code))) + Collect(walk, TooLong)
  {
    var lineAdvice := LongLineSuggestions(SplitLines(code));
    var tooLong := CollectAdvice(walk, TooLong);
    suggestions := lineAdvice + tooLong;
  }

  /** `_check_best_practices`: the docstring advice, then the type-hint advice, each in walk order. */
  method CheckBestPractices(walk: seq<Node>) returns (practices: seq<string>)
    ensures practices == Collect(walk, MissingDocstring) + Collect(walk, MissingTypeHints)
  {
    var docs := CollectAdvice(walk, MissingDocstring);
    var hints := CollectAdvice(walk, MissingTypeHints);
    practices := docs + hints;
  }

  // ---------------------------------------------------------------------
  // Performance
  // ---------------------------------------------------------------------

  /**
   * The exception `_analyze_performance` raises at a `for` loop: it looks up
   * `ast.Append`, which the `ast` module does not define.
   */
  const MissingAppend: string := "AttributeError: module 'ast' has no attribute 'Append'"

  const JoinTip: string := "Use join() instead of multiple string concatenations"

  /** The tip for an addition with a string literal on either side. */
  function ConcatenationTip(n: Node): seq<string>
  {
    if n.BinOp? && n.isAdd && n.stringOperand then [JoinTip] else []
  }

  predicate HasForLoop(walk: seq<Node>)
  {
    exists k :: 0 <= k < |walk| && walk[k].For?
  }

  /**
   * `_analyze_performance`: the first `for` loop of the walk raises;
   * a walk without one gives the concatenation tips in walk order.
   */
  method AnalyzePerformance(walk: seq<Node>) returns (r: Result<seq<string>, string>)
    ensures HasForLoop(walk) ==> r == Err(MissingAppend)
    ensures !HasForLoop(walk) ==> r == Ok(Collect(walk, ConcatenationTip))
  {
    var tips := [];
    for i := 0 to |walk|
      invariant forall k :: 0 <= k < i ==> !walk[k].For?
      invariant tips == Collect(walk[..i], ConcatenationTip)
    {
      assert walk[..i + 1][..i] == walk[..i];
      if walk[i].For? {
        return Err(MissingAppend);
      }
      tips := tips + ConcatenationTip(walk[i]);
    }
    assert walk[..|walk|] == walk;
    r := Ok(tips);
  }

  /** Without a `for` loop, the join tip is given exactly when some addition has a string literal operand. */
  lemma JoinTipIff(walk: seq<Node>)
    ensures JoinTip in Collect(walk, ConcatenationTip) <==>
      exists k :: 0 <= k < |walk| && walk[k].BinOp? && walk[k].isAdd && walk[k].stringOperand
  {
    CollectMembers(walk, ConcatenationTip, JoinTip);
  }

  /**
   * `analyze_code`: a syntax error gives the fixed invalid-syntax result; a
   * tree with a `for` loop makes the performance check raise, and only a
   * `SyntaxError` is caught, so the exception escapes; otherwise the result
   * of the five checks.
   */
  method AnalyzeCode(code: string, parse: Parse) returns (r: Result<AnalysisResult, string>)
    ensures parse.SyntaxError? ==> r == Ok(AnalysisResult(0, ["Invalid Python syntax"], [], [], []))
    ensures parse.Parsed? && HasForLoop(parse.walk) ==> r == Err(MissingAppend)
    ensures parse.Parsed? && !HasForLoop(parse.walk) ==>
      && r.Ok?
      && r.value.complexity == 1 + DecisionPoints(parse.walk)
      && r.value.suggestions == LineMessages(LongLineNumbers(SplitLines(code))) + Collect(parse.walk, TooLong)
      && r.value.securityIssues == MatchedMessages(SecurityPatterns, code)
      && r.value.bestPractices == Collect(parse.walk, MissingDocstring) + Collect(parse.walk, MissingTypeHints)
      && r.value.performanceTips == Collect(parse.walk, ConcatenationTip)
  {
    if parse.SyntaxError? {
      return Ok(AnalysisResult(0, ["Invalid Python syntax"], [], [], []));
    }
    var complexity := CalculateComplexity(parse.walk);
    var suggestions := GenerateSuggestions(code, parse.walk);
    var security := CheckSecurity(code);
    var practices := CheckBestPractices(parse.walk);
    var performance := AnalyzePerformance(parse.walk);
    if performance.Err? {
      return Err(performance.error);
    }
    r := Ok(AnalysisResult(complexity, suggestions, security, practices, performance.value));
  }
}
