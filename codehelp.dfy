/**
 * The multi-provider assistant cog (`codehelp` and `ask`): a provider
 * picked at random answers, a provider's exception becomes an error text,
 * and a long answer is sent in parts. The provider SDK calls are a
 * parameter: the text they returned, or the message of what they raised.
 */
module CodeHelp {
  import opened Wrappers
  import opened Text

  datatype Provider = OpenAI | Claude | Gemini

  /** The choices of `random.choice(['openai', 'claude', 'gemini'])`. */
  const Providers: seq<Provider> := [OpenAI, Claude, Gemini]

  function ErrorPrefix(p: Provider): string
  {
    match p
    case OpenAI => "OpenAI Error: "
    case Claude => "Claude Error: "
    case Gemini => "Gemini Error: "
  }

  /** `get_openai_response`, `get_claude_response`, `get_gemini_response`: an exception is returned as text. */
  function ProviderAnswer(p: Provider, call: Result<string, string>): (answer: string)
    ensures call.Ok? ==> answer == call.value
    ensures call.Err? ==> StartsWith(answer, ErrorPrefix(p)) && answer[|ErrorPrefix(p)|..] == call.error
  {
    match call
    case Ok(text) => text
    case Err(message) =>
      assert (ErrorPrefix(p) + message)[..|ErrorPrefix(p)|] == ErrorPrefix(p);
      ErrorPrefix(p) + message
  }

  const CodeHelpSystemPrompt: string :=
    "You are an expert programming assistant. Provide clear, \n"
    + "        concise explanations with practical code examples. Focus on best practices \n"
    + "        and modern development approaches."

  const AskSystemPrompt: string :=
    "You are a helpful assistant in a developer community. \n"
    + "        Provide friendly, informative responses while maintaining professionalism."

  /** The system prompt a provider is given; Gemini is given none. */
  function SystemPromptFor(p: Provider, systemPrompt: string): (r: Option<string>)
    ensures r.None? <==> p == Gemini
  {
    if p == Gemini then None else Some(systemPrompt)
  }

  const MessageLimit: nat := 2000
  const PartLength: nat := 1990

  /** An answer longer than 2000 characters goes out in 1990-character parts, any other in one piece. */
  function SplitAnswer(answer: string): (parts: seq<string>)
    ensures |answer| <= MessageLimit ==> parts == [answer]
    ensures |answer| > MessageLimit ==> parts == Chunks(answer, PartLength)
  {
    if |answer| > MessageLimit then Chunks(answer, PartLength) else [answer]
  }

  /**
   * The parts concatenate back to the answer, and each is at most 2000
   * characters; in a split answer every part is at most 1990 long, and all
   * but the last exactly 1990.
   */
  lemma SplitAnswerSpec(answer: string)
    ensures var parts := SplitAnswer(answer);
      && Concat(parts) == answer
      && (forall k :: 0 <= k < |parts| ==> |parts[k]| <= MessageLimit)
      && (|answer| > MessageLimit ==>
            |parts| >= 2
            && (forall k :: 0 <= k < |parts| ==> 0 < |parts[k]| <= PartLength)
            && (forall k :: 0 <= k < |parts| - 1 ==> |parts[k]| == PartLength))
  {
    if |answer| > MessageLimit {
      ChunksSpec(answer, PartLength);
      var parts := Chunks(answer, PartLength);
      assert parts == [answer[..PartLength]] + Chunks(answer[PartLength..], PartLength);
    } else {
      assert Concat([answer]) == answer + Concat([]);
    }
  }

  datatype Command = CodeHelpCommand | AskCommand

  const CodeFence: string := "```"

  /** The messages a command sends: `codehelp` wraps every part in a code fence, `ask` sends it bare. */
  function Messages(command: Command, answer: string): (messages: seq<string>)
    ensures |messages| == |SplitAnswer(answer)|
    ensures command == AskCommand ==> messages == SplitAnswer(answer)
    ensures command == CodeHelpCommand ==> forall k :: 0 <= k < |messages| ==>
      (|messages[k]| >= 2 * |CodeFence| && StartsWith(messages[k], CodeFence) && EndsWith(messages[k], CodeFence)
       && messages[k][|CodeFence|..|messages[k]| - |CodeFence|] == SplitAnswer(answer)[k])
  {
    var parts := SplitAnswer(answer);
    seq(|parts|, k requires 0 <= k < |parts| =>
      if command == CodeHelpCommand then CodeFence + parts[k] + CodeFence else parts[k])
  }

  /**
   * One invocation of `codehelp` or `ask`: the provider at `pick` answers
   * the question and the answer is sent in parts.
   */
  function Answer(command: Command, pick: nat, calls: Provider -> Result<string, string>): (messages: seq<string>)
    ensures |messages| >= 1
  {
    var p := Providers[pick % |Providers|];
    var answer := ProviderAnswer(p, calls(p));
    assert |SplitAnswer(answer)| >= 1 by {
      SplitAnswerSpec(answer);
    }
    Messages(command, answer)
  }

  /** A short answer from any provider is sent as exactly one message. */
  lemma ShortAnswerOneMessage(command: Command, answer: string)
    requires |answer| <= MessageLimit
    ensures Messages(command, answer) == [if command == CodeHelpCommand then CodeFence + answer + CodeFence else answer]
  {
  }
}
