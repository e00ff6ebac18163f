/**
 * The Fun cog's `roll`, `poll` and `trivia` commands. The random draws are
 * a parameter: `draw(k)` is an arbitrary integer for the k-th die, which
 * `randint(1, limit)` stands for once reduced into the range.
 */
module Fun {
  import opened Wrappers
  import opened Text

  const BadFormat: string := "Format has to be in NdN!"

  /** `rolls, limit = map(int, dice.split('d'))`: exactly two pieces, both integers. */
  function ParseDice(dice: string): (r: Option<(int, int)>)
    ensures r.Some? <==> (|Split(dice, "d")| == 2
      && ParseInt(Split(dice, "d")[0]).Some? && ParseInt(Split(dice, "d")[1]).Some?)
  {
    var pieces := Split(dice, "d");
    if |pieces| != 2 then None
    else match (ParseInt(pieces[0]), ParseInt(pieces[1]))
      case (Some(rolls), Some(limit)) => Some((rolls, limit))
      case _ => None
  }

  /** `randint(1, limit)` for the k-th die. */
  function Die(limit: int, draw: nat -> int, k: nat): int
    requires limit >= 1
  {
    1 + draw(k) % limit
  }

  /**
   * `roll`: `Some` of the results, or `None` when the reply is the format
   * message. A non-positive count rolls nothing; a limit below 1 makes
   * `randint` raise as soon as one die is rolled.
   */
  function Roll(dice: string, draw: nat -> int): (r: Option<seq<int>>)
    ensures r.None? <==> ParseDice(dice).None? || (ParseDice(dice).value.0 >= 1 && ParseDice(dice).value.1 < 1)
    ensures r.Some? ==> var (rolls, limit) := ParseDice(dice).value;
      && |r.value| == (if rolls > 0 then rolls else 0)
      && forall k :: 0 <= k < |r.value| ==> 1 <= r.value[k] <= limit
  {
    match ParseDice(dice)
    case None => None
    case Some((rolls, limit)) =>
      if rolls <= 0 then Some([])
      else if limit < 1 then None
      else Some(seq(rolls, k requires 0 <= k < rolls => Die(limit, draw, k)))
  }

  /** Every outcome of a die can be rolled: the draws do not restrict the values. */
  lemma EveryFaceReachable(limit: int, face: int)
    requires 1 <= face <= limit
    ensures Die(limit, (k: nat) => face - 1, 0) == face
  {
  }

  /** The reply to `roll`. */
  function RollMessage(r: Option<seq<int>>): string
  {
    match r
    case None => BadFormat
    case Some(values) =>
      "Results: " + Join(seq(|values|, k requires 0 <= k < |values| => IntToString(values[k])), ", ")
  }

  /** `"MdN"` for two non-zero digits rolls `M` dice, each showing 1 to `N`. */
  lemma RollDigitDice(m: nat, n: nat, draw: nat -> int)
    requires 1 <= m < 10 && 1 <= n < 10
    ensures var r := Roll([DigitChar(m), 'd', DigitChar(n)], draw);
      && r.Some? && |r.value| == m
      && forall k :: 0 <= k < m ==> 1 <= r.value[k] <= n
  {
    ParseDigitDice(m, n);
  }

  /** `"MdN"` for two single digits is `M` dice of `N` faces. */
  lemma ParseDigitDice(m: nat, n: nat)
    requires m < 10 && n < 10
    ensures ParseDice([DigitChar(m), 'd', DigitChar(n)]) == Some((m, n))
  {
    var a, b := DigitChar(m), DigitChar(n);
    SplitDigitDice(a, b);
    ParseSmall(m);
    ParseSmall(n);
  }

  lemma SplitDigitDice(a: char, b: char)
    requires IsDigitChar(a) && IsDigitChar(b)
    ensures Split([a, 'd', b], "d") == [[a], [b]]
  {
    var d := [a, 'd', b];
    assert d[1..2] == "d";
    assert d[0..1][0] == a && "d"[0] == 'd';
    FindFirst(d, "d", 1);
    SplitUnfold(d, "d", 1);
    assert d[2..] == [b] && d[..1] == [a];
    CharAbsent([b], 'd');
  }

  lemma ParseSmall(n: nat)
    requires n < 10
    ensures ParseInt([DigitChar(n)]) == Some(n)
  {
    ParseIntRoundTrip(n);
  }

  /** A text without the separator `d` is refused, whatever else it holds. */
  lemma RollWithoutSeparator(dice: string, draw: nat -> int)
    requires forall i :: 0 <= i < |dice| ==> dice[i] != 'd'
    ensures Roll(dice, draw).None?
  {
    CharAbsent(dice, 'd');
    assert Split(dice, "d") == [dice];
  }

  /** Three digits joined by two `d`s are three pieces, which are refused. */
  lemma RollThreePieces(a: char, b: char, c: char, draw: nat -> int)
    requires IsDigitChar(a) && IsDigitChar(b) && IsDigitChar(c)
    ensures Roll([a, 'd', b, 'd', c], draw).None?
  {
    var t := [b, 'd', c];
    SplitDigitDice(b, c);
    var d := [a] + "d" + t;
    assert d == [a, 'd', b, 'd', c];
    assert !Contains([a], "d") by {
      CharAbsent([a], 'd');
    }
    assert HeadUnique("d");
    SplitConsFree([a], t, "d");
    assert |Split(d, "d")| == 3;
  }

  /** The number keycaps and the ten emoji, in order. */
  const Reactions: seq<string> := [
    "1\U{FE0F}\U{20E3}", "2\U{FE0F}\U{20E3}", "3\U{FE0F}\U{20E3}", "4\U{FE0F}\U{20E3}", "5\U{FE0F}\U{20E3}",
    "6\U{FE0F}\U{20E3}", "7\U{FE0F}\U{20E3}", "8\U{FE0F}\U{20E3}", "9\U{FE0F}\U{20E3}", "\U{1F51F}"
  ]

  const MaxOptions: nat := 10
  const TooManyOptions: string := "You can only have up to 10 options!"

  /**
   * What `poll` does: refuse, or post an embed, add reactions to it, and
   * possibly raise before the command completes.
   */
  datatype PollReply =
    | Refused(message: string)
    | Posted(title: string, description: string, reactions: seq<string>, raised: bool)

  /** The description line of option `i`. */
  function OptionLine(i: nat, option: string): string
    requires i < |Reactions|
  {
    Reactions[i] + " " + option
  }

  /** The description lines, option by option. */
  function Lines(options: seq<string>): (lines: seq<string>)
    requires |options| <= MaxOptions
    ensures |lines| == |options|
  {
    seq(|options|, i requires 0 <= i < |options| => OptionLine(i, options[i]))
  }

  /** The loop of `poll` that builds the description lines. */
  method DescriptionLines(options: seq<string>) returns (lines: seq<string>)
    requires |options| <= MaxOptions
    ensures lines == Lines(options)
  {
    lines := [];
    for i := 0 to |options|
      invariant lines == Lines(options)[..i]
    {
      lines := lines + [OptionLine(i, options[i])];
    }
  }

  /**
   * `poll` as written: more than ten options are refused before anything is
   * posted; otherwise the embed is posted with the question as its title and
   * one line per option. The reactions are then added through what
   * `send_message` returned, which is not a message and has no
   * `add_reaction`, so with any option the command raises `AttributeError`
   * at the first reaction and none is added.
   */
  method Poll(question: string, options: seq<string>) returns (reply: PollReply)
    ensures |options| > MaxOptions <==> reply == Refused(TooManyOptions)
    ensures |options| <= MaxOptions ==>
      reply.Posted? && reply.title == question && reply.description == Join(Lines(options), "\n")
    ensures |options| <= MaxOptions ==> reply.reactions == [] && (reply.raised <==> |options| > 0)
  {
    if |options| > MaxOptions {
      return Refused(TooManyOptions);
    }
    var lines := DescriptionLines(options);
    var added: seq<string> := [];
    for i := 0 to |options|
      invariant added == [] && i == 0
    {
      // `poll_message.add_reaction` raises on the first option.
      reply := Posted(question, Join(lines, "\n"), added, true);
      return;
    }
    reply := Posted(question, Join(lines, "\n"), added, false);
  }

  /**
   * `poll` as intended: the posted message is fetched back
   * (`interaction.original_response()`) and one reaction per option is added
   * to it, in order, each the one its option's line starts with.
   */
  method PollWithReactions(question: string, options: seq<string>) returns (reply: PollReply)
    ensures |options| > MaxOptions <==> reply == Refused(TooManyOptions)
    ensures |options| <= MaxOptions ==>
      reply.Posted? && reply.title == question && reply.description == Join(Lines(options), "\n") && !reply.raised
    ensures |options| <= MaxOptions ==>
      && |reply.reactions| == |options|
      && (forall i :: 0 <= i < |options| ==> StartsWith(Lines(options)[i], reply.reactions[i] + " "))
      && (forall i, j :: 0 <= i < j < |options| ==> reply.reactions[i] != reply.reactions[j])
  {
    if |options| > MaxOptions {
      return Refused(TooManyOptions);
    }
    var lines := DescriptionLines(options);
    var added: seq<string> := [];
    for i := 0 to |options|
      invariant added == Reactions[..i]
    {
      added := added + [Reactions[i]];
    }
    reply := Posted(question, Join(lines, "\n"), added, false);
    forall i | 0 <= i < |options|
      ensures StartsWith(lines[i], added[i] + " ")
    {
      assert lines[i][..|Reactions[i] + " "|] == Reactions[i] + " ";
    }
    ReactionsDistinct();
  }

  /** The ten reactions are pairwise different. */
  lemma ReactionsDistinct()
    ensures forall i, j :: 0 <= i < j < |Reactions| ==> Reactions[i] != Reactions[j]
  {
    forall i, j | 0 <= i < j < |Reactions|
      ensures Reactions[i] != Reactions[j]
    {
      if j == 9 {
        assert |Reactions[i]| == 3 && |Reactions[j]| == 1;
      } else {
        assert Reactions[i][0] != Reactions[j][0];
      }
    }
  }

  /** Line `i` of the description starts with reaction `i`, and the lines read back when no option holds a line break. */
  lemma DescriptionReadsBack(options: seq<string>)
    requires 1 <= |options| <= MaxOptions
    requires forall i :: 0 <= i < |options| ==> !Contains(options[i], "\n")
    ensures forall i :: 0 <= i < |options| ==> StartsWith(Lines(options)[i], Reactions[i] + " ")
    ensures Split(Join(Lines(options), "\n"), "\n") == Lines(options)
  {
    var lines := Lines(options);
    forall i | 0 <= i < |lines|
      ensures !Contains(lines[i], "\n") && StartsWith(lines[i], Reactions[i] + " ")
    {
      ReactionNoBreak(i);
      NoBreakInConcat(Reactions[i] + " ", options[i]);
      assert lines[i][..|Reactions[i] + " "|] == Reactions[i] + " ";
    }
    SplitJoin(lines, "\n");
  }

  lemma ReactionNoBreak(i: nat)
    requires i < |Reactions|
    ensures !Contains(Reactions[i] + " ", "\n")
  {
    var r := Reactions[i] + " ";
    assert forall j :: 0 <= j < |r| ==> r[j] != '\n';
    CharAbsent(r, '\n');
  }

  /** Joining two pieces without line breaks makes none. */
  lemma NoBreakInConcat(a: string, b: string)
    requires !Contains(a, "\n") && !Contains(b, "\n")
    ensures !Contains(a + b, "\n")
  {
    if Contains(a + b, "\n") {
      var i := Find(a + b, "\n").value;
      var c := (a + b)[i];
      assert (a + b)[i..i + 1] == "\n";
      if i < |a| {
        assert a[i..i + 1] == "\n";
        ContainsAt(a, "\n", i);
      } else {
        assert b[i - |a|..i - |a| + 1] == "\n";
        ContainsAt(b, "\n", i - |a|);
      }
    }
  }

  /** The trivia questions and their answers. */
  const Questions: seq<(string, string)> := [
    ("What does HTML stand for?", "HyperText Markup Language"),
    ("What is the main programming language used for Android development?", "Java"),
    ("What does CSS stand for?", "Cascading Style Sheets"),
    ("What is the name of the Python package manager?", "pip"),
    ("What is the main language used for web development?", "JavaScript")
  ]

  /** `trivia`: the question picked is sent, then the follow-up to the answer. */
  function Trivia(pick: nat, answer: Option<string>): (messages: seq<string>)
    ensures |messages| == 2 && messages[0] in QuestionTexts()
  {
    var (question, correct) := Questions[pick % |Questions|];
    [question, TriviaReply(correct, answer)]
  }

  function QuestionTexts(): (texts: set<string>)
  {
    set k | 0 <= k < |Questions| :: Questions[k].0
  }

  /** The follow-up to a trivia question: `None` is no answer within the timeout. */
  function TriviaReply(correct: string, answer: Option<string>): (reply: string)
    ensures answer.Some? ==> (reply == "Correct!" <==> Lower(answer.value) == Lower(correct))
    ensures answer.None? ==> reply == "Sorry, you took too long. The correct answer was " + correct + "."
  {
    match answer
    case None => "Sorry, you took too long. The correct answer was " + correct + "."
    case Some(content) =>
      if Lower(content) == Lower(correct) then "Correct!"
      else
        assert ("Incorrect. The correct answer was " + correct + ".")[0] == 'I';
        "Incorrect. The correct answer was " + correct + "."
  }

  /** Lower-casing twice is lower-casing once. */
  lemma LowerIdempotent(s: string)
    ensures Lower(Lower(s)) == Lower(s)
  {
  }

  /** Answers that differ only in letter case get the same reply. */
  lemma TriviaIgnoresCase(correct: string, content: string)
    ensures TriviaReply(correct, Some(Lower(content))) == TriviaReply(correct, Some(content))
    ensures TriviaReply(correct, Some(correct)) == "Correct!"
  {
    LowerIdempotent(content);
  }
}
