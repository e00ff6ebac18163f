/**
 * The conversation cog: per-service cooldowns, the HuggingFace model loop,
 * the choice between provider answers and the keyword fallback, prompt
 * building and response clean-up, and the per-channel enable/disable/reset
 * state with its conversation context.
 *
 * The clock is the parameter `now` (whole seconds). A provider call is an
 * outcome given as a parameter; `random.choice(pool)` is `pool[pick % |pool|]`.
 */
module Chat {
  import opened Wrappers
  import opened Text

  /** The default `cooldown_seconds` of `_is_on_cooldown`. */
  const DefaultCooldown: int := 60

  /** `service_cooldowns.get(service, 0)`. */
  function LastFailure(cooldowns: map<string, int>, service: string): int
  {
    if service in cooldowns then cooldowns[service] else 0
  }

  /** `_is_on_cooldown`: the last failure is less than `cooldownSeconds` ago. */
  predicate OnCooldown(cooldowns: map<string, int>, service: string, now: int, cooldownSeconds: int)
  {
    now - LastFailure(cooldowns, service) < cooldownSeconds
  }

  /** A service that never failed is not on cooldown once the clock is past the cooldown length. */
  lemma NeverFailedIsAvailable(cooldowns: map<string, int>, service: string, now: int, cooldownSeconds: int)
    requires service !in cooldowns && now >= cooldownSeconds
    ensures !OnCooldown(cooldowns, service, now, cooldownSeconds)
  {
  }

  /**
   * Recording a failure of one service puts that service on cooldown for a
   * positive length and leaves every other service's status as it was.
   */
  lemma SetCooldownEffect(cooldowns: map<string, int>, service: string, now: int, other: string, later: int, cooldownSeconds: int)
    ensures OnCooldown(cooldowns[service := now], service, later, cooldownSeconds) <==> later - now < cooldownSeconds
    ensures other != service ==>
      (OnCooldown(cooldowns[service := now], other, later, cooldownSeconds) <==> OnCooldown(cooldowns, other, later, cooldownSeconds))
  {
  }

  // ---------------------------------------------------------------------
  // Provider outcomes and the race between them
  // ---------------------------------------------------------------------

  /** What one single-endpoint provider call (Gemini, You.com, Perplexity, Ollama) does. */
  datatype ProviderOutcome =
    | Answered(text: string)   // the call returned this text (possibly empty)
    | NoAnswer                 // a 200 reply without a usable answer: `None`, no cooldown
    | Failed                   // an exception or a non-200 status: cooldown, `None`

  /** What one future of `asyncio.as_completed` yields when awaited. */
  datatype Arrival = Returned(value: Option<string>) | Raised

  /** `if result:` on an awaited provider result. */
  predicate Truthy(a: Arrival)
  {
    a.Returned? && a.value.Some? && a.value.value != ""
  }

  /** The position of the first truthy result in completion order, if any. */
  function FirstTruthy(arrivals: seq<Arrival>): (r: Option<nat>)
    ensures r.Some? ==> r.value < |arrivals| && Truthy(arrivals[r.value])
    ensures r.Some? ==> forall j :: 0 <= j < r.value ==> !Truthy(arrivals[j])
    ensures r.None? ==> forall j :: 0 <= j < |arrivals| ==> !Truthy(arrivals[j])
  {
    if |arrivals| == 0 then None
    else if Truthy(arrivals[0]) then Some(0)
    else match FirstTruthy(arrivals[1..])
      case None => None
      case Some(k) => Some(k + 1)
  }

  // ---------------------------------------------------------------------
  // The rule-based fallback
  // ---------------------------------------------------------------------

  const Greetings: seq<string> := ["hi", "hello", "hey", "greetings", "howdy"]
  const QuestionWords: seq<string> := ["how", "what", "why", "when", "where", "who", "can", "could", "would", "?"]

  const GreetingReplies: seq<string> := [
    "Hello there! How can I help you today?",
    "Hi! What can I assist you with?",
    "Hey! I'm here to help. What's up?",
    "Greetings! How can I be of service today?"
  ]

  const QuestionReplies: seq<string> := [
    "That's a great question! I'd love to help, but I'm having some technical difficulties right now. Could you try asking again in a moment?",
    "I'm thinking about your question, but my systems are a bit slow right now. Could you try rephrasing or asking again later?",
    "I want to give you a good answer, but I'm experiencing some technical issues. Let me get back to you on that soon!",
    "Interesting question! I'm currently processing a lot of requests. Could you try again in a bit?"
  ]

  const DefaultReplies: seq<string> := [
    "I'm here and listening! Could you tell me more about that?",
    "That's interesting! Could you elaborate a bit more?",
    "I'd love to continue this conversation, but I'm having some technical difficulties. Let's chat more in a moment!",
    "I appreciate your message! I'm currently processing a lot of information. What else would you like to discuss?",
    "Thanks for reaching out! I'm here to help with any questions about programming or design."
  ]

  /** The marker the fallback looks for. */
  const UserMarker: string := "User:"

  /** The user's line of a prompt: after the last `User:`, up to the first newline, stripped. */
  function UserMessage(prompt: string): string
  {
    if Contains(prompt, UserMarker) then Strip(Split(Last(Split(prompt, UserMarker)), "\n")[0]) else ""
  }

  /** `any(k in text for k in keywords)`. */
  predicate MentionsAny(text: string, keywords: seq<string>)
  {
    exists k :: 0 <= k < |keywords| && Contains(text, keywords[k])
  }

  datatype Bucket = Greeting | Question | Default

  /** The bucket of a user message: greetings first, then questions, else the default. */
  function Classify(message: string): Bucket
  {
    var low := Lower(message);
    if MentionsAny(low, Greetings) then Greeting
    else if MentionsAny(low, QuestionWords) then Question
    else Default
  }

  /** The three reply pools of the fallback, one per bucket. */
  datatype Pools = Pools(greeting: seq<string>, question: seq<string>, other: seq<string>)

  /** The pools `get_fallback_response` draws from. */
  const FallbackPools: Pools := Pools(GreetingReplies, QuestionReplies, DefaultReplies)

  /** Every pool has a reply, and no reply is empty. */
  predicate Filled(pools: Pools)
  {
    && |pools.greeting| > 0 && |pools.question| > 0 && |pools.other| > 0
    && (forall r :: r in pools.greeting ==> r != "")
    && (forall r :: r in pools.question ==> r != "")
    && (forall r :: r in pools.other ==> r != "")
  }

  function Replies(pools: Pools, b: Bucket): (pool: seq<string>)
    requires Filled(pools)
    ensures |pool| > 0 && forall r :: r in pool ==> r != ""
  {
    match b
    case Greeting => pools.greeting
    case Question => pools.question
    case Default => pools.other
  }

  /** `random.choice(pool)`, with the choice made by `pick`. */
  function Choose(pool: seq<string>, pick: nat): (r: string)
    requires |pool| > 0
    ensures r in pool
  {
    pool[pick % |pool|]
  }

  /** Every element of the pool can be chosen. */
  lemma ChooseCovers(pool: seq<string>, k: nat)
    requires k < |pool|
    ensures Choose(pool, k) == pool[k]
  {
    assert k % |pool| == k;
  }

  /** The fixed pools of the fallback are filled: each has a reply, none of them empty. */
  lemma FallbackPoolsFilled()
    ensures Filled(FallbackPools)
  {
    NoEmptyGreetingReply();
    NoEmptyQuestionReply();
    NoEmptyDefaultReply();
  }

  lemma NoEmptyGreetingReply()
    ensures |GreetingReplies| > 0 && forall r :: r in GreetingReplies ==> r != ""
  {
  }

  lemma NoEmptyQuestionReply()
    ensures |QuestionReplies| > 0 && forall r :: r in QuestionReplies ==> r != ""
  {
  }

  lemma NoEmptyDefaultReply()
    ensures |DefaultReplies| > 0 && forall r :: r in DefaultReplies ==> r != ""
  {
  }

  /** `get_fallback_response`: some reply of the bucket of the user's line. */
  function FallbackResponse(pools: Pools, prompt: string, pick: nat): (r: string)
    requires Filled(pools)
    ensures r in Replies(pools, Classify(UserMessage(prompt)))
    ensures r != ""
  {
    Choose(Replies(pools, Classify(UserMessage(prompt))), pick)
  }

  /** Every reply of the selected bucket is a possible fallback. */
  lemma FallbackCoversPool(pools: Pools, prompt: string, reply: string)
    requires Filled(pools)
    requires reply in Replies(pools, Classify(UserMessage(prompt)))
    ensures exists pick: nat :: FallbackResponse(pools, prompt, pick) == reply
  {
    var pool := Replies(pools, Classify(UserMessage(prompt)));
    var k :| 0 <= k < |pool| && pool[k] == reply;
    ChooseCovers(pool, k);
    assert FallbackResponse(pools, prompt, k) == reply;
  }

  /** The bucket order: the greeting bucket wins over the question bucket. */
  lemma ClassifySpec(message: string)
    ensures Classify(message) == Greeting <==> MentionsAny(Lower(message), Greetings)
    ensures Classify(message) == Question <==>
      !MentionsAny(Lower(message), Greetings) && MentionsAny(Lower(message), QuestionWords)
    ensures Classify(message) == Default <==>
      !MentionsAny(Lower(message), Greetings) && !MentionsAny(Lower(message), QuestionWords)
  {
  }

  /** The answer `get_ai_response` settles on for these arrivals. */
  function AiAnswer(pools: Pools, arrivals: seq<Arrival>, prompt: string, pick: nat): string
    requires Filled(pools)
  {
    match FirstTruthy(arrivals)
    case Some(k) => arrivals[k].value.value
    case None => FallbackResponse(pools, prompt, pick)
  }

  /**
   * The settled answer is the first truthy result in completion order, or
   * the fallback for the same prompt when there is none; it is never empty.
   */
  lemma AiAnswerSpec(pools: Pools, arrivals: seq<Arrival>, prompt: string, pick: nat, k: nat)
    requires Filled(pools)
    ensures k < |arrivals| && Truthy(arrivals[k]) && (forall j :: 0 <= j < k ==> !Truthy(arrivals[j])) ==>
      AiAnswer(pools, arrivals, prompt, pick) == arrivals[k].value.value
    ensures (forall j :: 0 <= j < |arrivals| ==> !Truthy(arrivals[j])) ==>
      AiAnswer(pools, arrivals, prompt, pick) == FallbackResponse(pools, prompt, pick)
    ensures AiAnswer(pools, arrivals, prompt, pick) != ""
  {
  }

  /**
   * `get_ai_response`: the first truthy provider result in completion order;
   * if there is none, the fallback for the same prompt.
   */
  method GetAiResponse(pools: Pools, arrivals: seq<Arrival>, prompt: string, pick: nat) returns (response: string)
    requires Filled(pools)
    ensures response == AiAnswer(pools, arrivals, prompt, pick)
  {
    var i := 0;
    while i < |arrivals|
      invariant 0 <= i <= |arrivals|
      invariant forall j :: 0 <= j < i ==> !Truthy(arrivals[j])
    {
      var a := arrivals[i];
      if a.Returned? && a.value.Some? && a.value.value != "" {
        return a.value.value;
      }
      i := i + 1;
    }
    response := FallbackResponse(pools, prompt, pick);
  }

  // ---------------------------------------------------------------------
  // HuggingFace
  // ---------------------------------------------------------------------

  const HuggingFaceService: string := "huggingface"

  const HuggingFaceModels: seq<string> := [
    "HuggingFaceH4/zephyr-7b-beta",
    "mistralai/Mistral-7B-Instruct-v0.2",
    "facebook/opt-1.3b",
    "microsoft/DialoGPT-medium"
  ]

  /** The cooldown key `huggingface_{model}` of the `k`-th model. */
  function ModelKey(k: nat): string
    requires k < |HuggingFaceModels|
  {
    "huggingface_" + HuggingFaceModels[k]
  }

  /** The model keys are pairwise distinct and distinct from the service key. */
  lemma ModelKeysDistinct()
    ensures forall i, j :: 0 <= i < j < |HuggingFaceModels| ==> ModelKey(i) != ModelKey(j)
    ensures forall i :: 0 <= i < |HuggingFaceModels| ==> ModelKey(i) != HuggingFaceService
  {
    assert |ModelKey(0)| == 40 && |ModelKey(1)| == 46 && |ModelKey(2)| == 29 && |ModelKey(3)| == 37;
  }

  /** What posting the prompt to one model gives. */
  datatype ModelOutcome =
    | Generated(text: string)  // status 200 with a non-empty list: its first `generated_text`
    | OtherPayload             // status 200 with anything else: no cooldown, next model
    | HttpError                // another status: model cooldown, next model
    | Exception                // the request raised: model cooldown, next model
  {
    predicate Fails() { HttpError? || Exception? }
  }

  /** Drop an echoed prompt: `text[len(prompt):].strip()` when `text` starts with it. */
  function EchoStripped(text: string, prompt: string): string
  {
    if StartsWith(text, prompt) then Strip(text[|prompt|..]) else text
  }

  /** A generated text that echoes the prompt loses it and the surrounding whitespace. */
  lemma EchoStrippedRemovesPrompt(prompt: string, reply: string)
    ensures EchoStripped(prompt + reply, prompt) == Strip(reply)
  {
    assert (prompt + reply)[..|prompt|] == prompt;
    assert (prompt + reply)[|prompt|..] == reply;
  }

  /** Model `k` is tried: its key is not on cooldown in `cooldowns`. */
  predicate ModelAvailable(cooldowns: map<string, int>, now: int, k: nat)
    requires k < |HuggingFaceModels|
  {
    !OnCooldown(cooldowns, ModelKey(k), now, DefaultCooldown)
  }

  /** The first model, from `from` on, that is tried and generates text. */
  function FirstGenerating(cooldowns: map<string, int>, now: int, outcomes: seq<ModelOutcome>, from: nat): (r: Option<nat>)
    requires |outcomes| == |HuggingFaceModels| && from <= |HuggingFaceModels|
    ensures r.Some? ==> from <= r.value < |HuggingFaceModels|
    ensures r.Some? ==> ModelAvailable(cooldowns, now, r.value) && outcomes[r.value].Generated?
    ensures r.Some? ==> forall k :: from <= k < r.value ==> !(ModelAvailable(cooldowns, now, k) && outcomes[k].Generated?)
    ensures r.None? ==> forall k :: from <= k < |HuggingFaceModels| ==> !(ModelAvailable(cooldowns, now, k) && outcomes[k].Generated?)
    decreases |HuggingFaceModels| - from
  {
    if from == |HuggingFaceModels| then None
    else if ModelAvailable(cooldowns, now, from) && outcomes[from].Generated? then Some(from)
    else FirstGenerating(cooldowns, now, outcomes, from + 1)
  }

  /** The cooldown table after the first `n` models: each tried model that failed is stamped `now`. */
  function FailuresRecorded(cooldowns: map<string, int>, now: int, outcomes: seq<ModelOutcome>, n: nat): map<string, int>
    requires |outcomes| == |HuggingFaceModels| && n <= |HuggingFaceModels|
  {
    if n == 0 then cooldowns
    else
      var before := FailuresRecorded(cooldowns, now, outcomes, n - 1);
      if ModelAvailable(cooldowns, now, n - 1) && outcomes[n - 1].Fails() then before[ModelKey(n - 1) := now]
      else before
  }

  /**
   * Recording the failures of the first `n` models changes only the keys of
   * those models, each to `now`, and exactly when the model was tried and failed.
   */
  lemma {:induction false} FailuresRecordedSpec(cooldowns: map<string, int>, now: int, outcomes: seq<ModelOutcome>, n: nat, key: string)
    requires |outcomes| == |HuggingFaceModels| && n <= |HuggingFaceModels|
    ensures (forall k :: 0 <= k < n ==> ModelKey(k) != key) ==>
      LastFailure(FailuresRecorded(cooldowns, now, outcomes, n), key) == LastFailure(cooldowns, key)
    ensures forall k :: 0 <= k < n && ModelKey(k) == key && ModelAvailable(cooldowns, now, k) && outcomes[k].Fails() ==>
      LastFailure(FailuresRecorded(cooldowns, now, outcomes, n), key) == now
    decreases n
  {
    if n > 0 {
      FailuresRecordedSpec(cooldowns, now, outcomes, n - 1, key);
      ModelKeysDistinct();
    }
  }

  /**
   * One model of the loop: whether it is tried does not depend on the failures
   * recorded before it, and it extends the recorded failures and the search
   * for the first answer by one position.
   */
  lemma ModelStep(cooldowns: map<string, int>, now: int, outcomes: seq<ModelOutcome>, i: nat)
    requires |outcomes| == |HuggingFaceModels| && i < |HuggingFaceModels|
    ensures ModelAvailable(FailuresRecorded(cooldowns, now, outcomes, i), now, i) == ModelAvailable(cooldowns, now, i)
    ensures FailuresRecorded(cooldowns, now, outcomes, i + 1) ==
      if ModelAvailable(cooldowns, now, i) && outcomes[i].Fails()
      then FailuresRecorded(cooldowns, now, outcomes, i)[ModelKey(i) := now]
      else FailuresRecorded(cooldowns, now, outcomes, i)
    ensures ModelAvailable(cooldowns, now, i) && outcomes[i].Generated? ==>
      FirstGenerating(cooldowns, now, outcomes, i) == Some(i)
    ensures !(ModelAvailable(cooldowns, now, i) && outcomes[i].Generated?) ==>
      FirstGenerating(cooldowns, now, outcomes, i) == FirstGenerating(cooldowns, now, outcomes, i + 1)
  {
    ModelKeysDistinct();
    FailuresRecordedSpec(cooldowns, now, outcomes, i, ModelKey(i));
  }

  /** Recording model failures never touches the service's own key. */
  lemma ServiceKeyUntouched(cooldowns: map<string, int>, now: int, outcomes: seq<ModelOutcome>, n: nat)
    requires |outcomes| == |HuggingFaceModels| && n <= |HuggingFaceModels|
    ensures LastFailure(FailuresRecorded(cooldowns, now, outcomes, n), HuggingFaceService) == LastFailure(cooldowns, HuggingFaceService)
  {
    ModelKeysDistinct();
    FailuresRecordedSpec(cooldowns, now, outcomes, n, HuggingFaceService);
  }

  /** What `get_huggingface_response` returns, read off the table at the call. */
  function HuggingFaceResult(cooldowns: map<string, int>, now: int, outcomes: seq<ModelOutcome>, prompt: string): Option<string>
    requires |outcomes| == |HuggingFaceModels|
  {
    if OnCooldown(cooldowns, HuggingFaceService, now, DefaultCooldown) then None
    else match FirstGenerating(cooldowns, now, outcomes, 0)
      case Some(k) => Some(EchoStripped(outcomes[k].text, prompt))
      case None => None
  }

  /**
   * The table after `get_huggingface_response`: the failures of the models
   * tried before the answering one, or of every tried model and then the
   * service itself when none answered.
   */
  function HuggingFaceTable(cooldowns: map<string, int>, now: int, outcomes: seq<ModelOutcome>): map<string, int>
    requires |outcomes| == |HuggingFaceModels|
  {
    if OnCooldown(cooldowns, HuggingFaceService, now, DefaultCooldown) then cooldowns
    else match FirstGenerating(cooldowns, now, outcomes, 0)
      case Some(k) => FailuresRecorded(cooldowns, now, outcomes, k)
      case None => FailuresRecorded(cooldowns, now, outcomes, |HuggingFaceModels|)[HuggingFaceService := now]
  }

  /** A key that is neither the service's nor a model's is left alone by the HuggingFace call. */
  lemma HuggingFaceTableElsewhere(cooldowns: map<string, int>, now: int, outcomes: seq<ModelOutcome>, key: string)
    requires |outcomes| == |HuggingFaceModels|
    requires key != HuggingFaceService && forall k :: 0 <= k < |HuggingFaceModels| ==> ModelKey(k) != key
    ensures LastFailure(HuggingFaceTable(cooldowns, now, outcomes), key) == LastFailure(cooldowns, key)
  {
    if !OnCooldown(cooldowns, HuggingFaceService, now, DefaultCooldown) {
      match FirstGenerating(cooldowns, now, outcomes, 0)
      case Some(k) => FailuresRecordedSpec(cooldowns, now, outcomes, k, key);
      case None => FailuresRecordedSpec(cooldowns, now, outcomes, |HuggingFaceModels|, key);
    }
  }

  /** The HuggingFace call stamps only with the current time, and never clears a stamp. */
  lemma {:induction false} FailuresOnlyStamp(cooldowns: map<string, int>, now: int, outcomes: seq<ModelOutcome>, n: nat, key: string)
    requires |outcomes| == |HuggingFaceModels| && n <= |HuggingFaceModels|
    ensures var after := LastFailure(FailuresRecorded(cooldowns, now, outcomes, n), key);
      after == LastFailure(cooldowns, key) || after == now
    decreases n
  {
    if n > 0 {
      FailuresOnlyStamp(cooldowns, now, outcomes, n - 1, key);
    }
  }

  // ---------------------------------------------------------------------
  // The race of `get_ai_response` over the five providers
  // ---------------------------------------------------------------------

  /** The single-endpoint providers, in task-list order: Gemini, You.com, Perplexity, Ollama. */
  const DirectServices: seq<string> := ["gemini", "you_api", "perplexity", "ollama"]

  /** The services of the task list of `get_ai_response`, in its order. */
  const RaceServices: seq<string> := ["gemini", HuggingFaceService, "you_api", "perplexity", "ollama"]

  /** The cooldown keys of different providers never collide. */
  lemma ServiceKeysDistinct()
    ensures forall i, j :: 0 <= i < j < |DirectServices| ==> DirectServices[i] != DirectServices[j]
    ensures forall i :: 0 <= i < |DirectServices| ==> DirectServices[i] != HuggingFaceService
    ensures forall i, k :: 0 <= i < |DirectServices| && 0 <= k < |HuggingFaceModels| ==> DirectServices[i] != ModelKey(k)
  {
    forall i, k | 0 <= i < |DirectServices| && 0 <= k < |HuggingFaceModels|
      ensures DirectServices[i] != ModelKey(k)
    {
      assert ModelKey(k)[0] == 'h';
    }
  }

  /**
   * What each provider of one `get_ai_response` call would do if called:
   * whether Gemini has a model configured, the outcomes of the four
   * single-endpoint providers (in `DirectServices` order) and of the four
   * HuggingFace models.
   */
  datatype RaceOutcomes = RaceOutcomes(geminiConfigured: bool, direct: seq<ProviderOutcome>, models: seq<ModelOutcome>)
  {
    predicate WellFormed()
    {
      |direct| == |DirectServices| && |models| == |HuggingFaceModels|
    }

    /** Only Gemini can be unconfigured (`self.gemini_model` is None). */
    predicate Configured(i: nat)
    {
      i != 0 || geminiConfigured
    }
  }

  /** Single-endpoint provider `i` is called: it is configured and off cooldown in `cooldowns`. */
  predicate DirectCalled(cooldowns: map<string, int>, now: int, o: RaceOutcomes, i: nat)
    requires i < |DirectServices|
  {
    o.Configured(i) && !OnCooldown(cooldowns, DirectServices[i], now, DefaultCooldown)
  }

  /** What single-endpoint provider `i` returns. */
  function DirectResult(cooldowns: map<string, int>, now: int, o: RaceOutcomes, i: nat): Option<string>
    requires o.WellFormed() && i < |DirectServices|
  {
    if DirectCalled(cooldowns, now, o, i) && o.direct[i].Answered? then Some(o.direct[i].text) else None
  }

  /**
   * The stamps of the first `n` single-endpoint providers, written over
   * `base`: provider `i` is stamped `now` exactly when it was called (judged
   * by `cooldowns`, the table when the race started) and failed.
   */
  function DirectTable(cooldowns: map<string, int>, base: map<string, int>, now: int, o: RaceOutcomes, n: nat): map<string, int>
    requires o.WellFormed() && n <= |DirectServices|
  {
    if n == 0 then base
    else
      var before := DirectTable(cooldowns, base, now, o, n - 1);
      if DirectCalled(cooldowns, now, o, n - 1) && o.direct[n - 1].Failed? then before[DirectServices[n - 1] := now]
      else before
  }

  /** The five results, in task-list order, each decided by the table at the start of the race. */
  function RaceResults(cooldowns: map<string, int>, now: int, o: RaceOutcomes, prompt: string): (results: seq<Option<string>>)
    requires o.WellFormed()
    ensures |results| == |RaceServices|
  {
    [ DirectResult(cooldowns, now, o, 0),
      HuggingFaceResult(cooldowns, now, o.models, prompt),
      DirectResult(cooldowns, now, o, 1),
      DirectResult(cooldowns, now, o, 2),
      DirectResult(cooldowns, now, o, 3) ]
  }

  /** The table once every provider of the race has recorded its failures. */
  function RaceTable(cooldowns: map<string, int>, now: int, o: RaceOutcomes): map<string, int>
    requires o.WellFormed()
  {
    DirectTable(cooldowns, HuggingFaceTable(cooldowns, now, o.models), now, o, |DirectServices|)
  }

  /** `order` lists the positions `0 .. n-1` once each: an order of completion. */
  predicate IsOrder(order: seq<nat>, n: nat)
  {
    && |order| == n
    && (forall i :: 0 <= i < n ==> order[i] < n)
    && (forall i, j :: 0 <= i < j < n ==> order[i] != order[j])
  }

  /**
   * What `as_completed(tasks, timeout=15)` yields: the results of the
   * `inTime` providers that finished before the deadline, in completion
   * order, then a `TimeoutError` for each provider still running.
   */
  function Arrivals(results: seq<Option<string>>, order: seq<nat>, inTime: nat): (a: seq<Arrival>)
    requires IsOrder(order, |results|) && inTime <= |results|
    ensures |a| == |results|
    ensures forall i :: 0 <= i < inTime ==> a[i] == Returned(results[order[i]])
    ensures forall i :: inTime <= i < |a| ==> a[i] == Raised
  {
    seq(|results|, i requires 0 <= i < |results| => if i < inTime then Returned(results[order[i]]) else Raised)
  }

  /** The stamps of the single-endpoint providers, key by key. */
  lemma {:induction false} DirectTableSpec(cooldowns: map<string, int>, base: map<string, int>, now: int, o: RaceOutcomes, n: nat, key: string)
    requires o.WellFormed() && n <= |DirectServices|
    ensures (forall i :: 0 <= i < n ==> DirectServices[i] != key) ==>
      LastFailure(DirectTable(cooldowns, base, now, o, n), key) == LastFailure(base, key)
    ensures forall i :: 0 <= i < n && DirectServices[i] == key ==>
      LastFailure(DirectTable(cooldowns, base, now, o, n), key) ==
        if DirectCalled(cooldowns, now, o, i) && o.direct[i].Failed? then now else LastFailure(base, key)
    decreases n
  {
    if n > 0 {
      DirectTableSpec(cooldowns, base, now, o, n - 1, key);
      ServiceKeysDistinct();
    }
  }

  /**
   * The race's cooldown table, key by key: a single-endpoint provider is
   * stamped `now` exactly when it was called and failed; the HuggingFace keys
   * change as `get_huggingface_response` changes them; every other key is
   * untouched; and no key ever goes back in time, so nothing clears a cooldown.
   */
  lemma RaceTableSpec(cooldowns: map<string, int>, now: int, o: RaceOutcomes, key: string)
    requires o.WellFormed()
    ensures forall i :: 0 <= i < |DirectServices| && DirectServices[i] == key ==>
      LastFailure(RaceTable(cooldowns, now, o), key) ==
        if DirectCalled(cooldowns, now, o, i) && o.direct[i].Failed? then now else LastFailure(cooldowns, key)
    ensures key !in DirectServices ==>
      LastFailure(RaceTable(cooldowns, now, o), key) == LastFailure(HuggingFaceTable(cooldowns, now, o.models), key)
    ensures key !in DirectServices && key != HuggingFaceService && (forall k :: 0 <= k < |HuggingFaceModels| ==> ModelKey(k) != key) ==>
      LastFailure(RaceTable(cooldowns, now, o), key) == LastFailure(cooldowns, key)
    ensures LastFailure(RaceTable(cooldowns, now, o), key) == LastFailure(cooldowns, key) || LastFailure(RaceTable(cooldowns, now, o), key) == now
  {
    var h := HuggingFaceTable(cooldowns, now, o.models);
    ServiceKeysDistinct();
    DirectTableSpec(cooldowns, h, now, o, |DirectServices|, key);
    if key in DirectServices {
      HuggingFaceTableElsewhere(cooldowns, now, o.models, key);
    } else if key != HuggingFaceService && forall k :: 0 <= k < |HuggingFaceModels| ==> ModelKey(k) != key {
      HuggingFaceTableElsewhere(cooldowns, now, o.models, key);
    }
    if !OnCooldown(cooldowns, HuggingFaceService, now, DefaultCooldown) {
      match FirstGenerating(cooldowns, now, o.models, 0)
      case Some(k) => FailuresOnlyStamp(cooldowns, now, o.models, k, key);
      case None => FailuresOnlyStamp(cooldowns, now, o.models, |HuggingFaceModels|, key);
    }
  }

  /** A provider that returns anything at all was off cooldown when the race started. */
  lemma RaceResultsOffCooldown(cooldowns: map<string, int>, now: int, o: RaceOutcomes, prompt: string, i: nat)
    requires o.WellFormed() && i < |RaceServices|
    requires RaceResults(cooldowns, now, o, prompt)[i].Some?
    ensures !OnCooldown(cooldowns, RaceServices[i], now, DefaultCooldown)
  {
  }

  /**
   * While provider `i` waits for its turn, the stamps written before it touch
   * other keys only, so its cooldown reads as at the start of the race.
   */
  lemma DirectStep(cooldowns: map<string, int>, now: int, o: RaceOutcomes, i: nat)
    requires o.WellFormed() && i < |DirectServices|
    ensures var t := DirectTable(cooldowns, HuggingFaceTable(cooldowns, now, o.models), now, o, i);
      OnCooldown(t, DirectServices[i], now, DefaultCooldown) == OnCooldown(cooldowns, DirectServices[i], now, DefaultCooldown)
  {
    ServiceKeysDistinct();
    var h := HuggingFaceTable(cooldowns, now, o.models);
    DirectTableSpec(cooldowns, h, now, o, i, DirectServices[i]);
    HuggingFaceTableElsewhere(cooldowns, now, o.models, DirectServices[i]);
  }

  // ---------------------------------------------------------------------
  // Prompt and context
  // ---------------------------------------------------------------------

  const Personality: string :=
    "You are IndieGO, a friendly and supportive AI assistant in a Discord server for students interested in development and design. Your traits:\n"
    + "- Enthusiastic about helping students learn and grow\n"
    + "- Knowledgeable about programming, web development, and design\n"
    + "- Patient and encouraging, especially with beginners\n"
    + "- Uses casual, friendly language while remaining professional\n"
    + "- Shares relevant examples and resources\n"
    + "- Asks thoughtful follow-up questions to better understand students' needs\n"
    + "- Celebrates students' successes and provides constructive feedback\n"
    + "- Has a sense of humor but keeps interactions appropriate\n"
    + "- Encourages collaboration and learning from peers\n"
    + "- Provides explanations at the right level for each student"

  /** `context[-3:]`. */
  function Window(context: seq<string>): (w: seq<string>)
    ensures |w| == if |context| < 3 then |context| else 3
    ensures w == context[|context| - |w|..]
  {
    if |context| <= 3 then context else context[|context| - 3..]
  }

  const PromptTail: string := "\n\nRespond naturally:"

  /** The prompt of `on_message`. */
  function BuildPrompt(personality: string, context: seq<string>, content: string): string
  {
    personality + "\n\nPrevious conversation:\n" + Join(Window(context), "\n") + "\n\nUser: " + content + PromptTail
  }

  lemma MarkerFacts()
    ensures HeadUnique(UserMarker)
    ensures forall t :: 0 <= t < |UserMarker| ==> UserMarker[t] != '\n'
    ensures |PromptTail| > 0 && PromptTail[0] == '\n'
    ensures forall t :: 0 <= t < |PromptTail| ==> PromptTail[t] != 'U'
  {
  }

  /** The part of a prompt after its last `User:` marker holds no further marker. */
  lemma PromptTailFree(content: string)
    requires !Contains(content, UserMarker)
    requires forall i :: 0 <= i < |content| ==> content[i] != '\n'
    ensures !Contains(" " + content + PromptTail, UserMarker)
  {
    MarkerFacts();
    var b := " " + content + PromptTail;
    var e := 1 + |content|;
    forall j | 0 <= j
      ensures !OccursAt(b, UserMarker, j)
    {
      if OccursAt(b, UserMarker, j) {
        if j == 0 {
          OccurrenceChar(b, UserMarker, j, 0);
        } else if j + |UserMarker| <= e {
          OccursInMiddle(" ", content, PromptTail, UserMarker, j);
        } else if j < e {
          OccurrenceChar(b, UserMarker, j, e - j);
        } else {
          OccurrenceChar(b, UserMarker, j, 0);
        }
      }
    }
  }

  /**
   * When every provider fails, the fallback classifies the user's own message:
   * the text after the prompt's final `User:` marker, provided the message is
   * one line without the marker.
   */
  lemma FallbackSeesUserMessage(personality: string, context: seq<string>, content: string)
    requires !Contains(content, UserMarker)
    requires forall i :: 0 <= i < |content| ==> content[i] != '\n'
    ensures UserMessage(BuildPrompt(personality, context, content)) == Strip(content)
  {
    MarkerFacts();
    var x := personality + "\n\nPrevious conversation:\n" + Join(Window(context), "\n") + "\n\nUser:";
    var b := " " + content + PromptTail;
    assert BuildPrompt(personality, context, content) == x + b;
    assert x[|x| - |UserMarker|..] == UserMarker;
    PromptTailFree(content);
    SplitLastAfterMarker(x, UserMarker, b);
    assert b == (" " + content) + PromptTail;
    SplitFirstPiece(" " + content, PromptTail, "\n");
    TrimLeftSkips(' ', content, Whitespace);
  }

  /** `response.replace("AI:", "").replace("Assistant:", "").replace("IndieGO:", "").strip()`. */
  function Cleanup(response: string): string
  {
    Strip(Replace(Replace(Replace(response, "AI:", ""), "Assistant:", ""), "IndieGO:", ""))
  }

  /** A response with none of the three prefixes is only stripped. */
  lemma CleanupWithoutPrefixes(response: string)
    requires !Contains(response, "AI:") && !Contains(response, "Assistant:") && !Contains(response, "IndieGO:")
    ensures Cleanup(response) == Strip(response)
  {
    ReplaceAbsent(response, "AI:", "");
    ReplaceAbsent(response, "Assistant:", "");
    ReplaceAbsent(response, "IndieGO:", "");
  }

  // ---------------------------------------------------------------------
  // Response gating
  // ---------------------------------------------------------------------

  /** `message.reference`, and what fetching the referenced message found. */
  datatype Reference =
    | NoReference
    | Fetched(authorIsThisBot: bool)  // the referenced message was fetched
    | NotFound                        // `fetch_message` raised `discord.NotFound`

  datatype Message = Message(
    authorIsBot: bool,
    authorName: string,
    channel: int,
    mentionsThisBot: bool,
    reference: Reference,
    content: string)

  const BotName: string := "indiego"

  /** The checks at the top of `on_message`, in their order. */
  function ShouldRespond(enabledChannels: set<int>, m: Message): bool
  {
    if m.authorIsBot then false
    else if m.channel !in enabledChannels then false
    else if m.mentionsThisBot then true
    else if m.reference != NoReference then m.reference == Fetched(true)
    else Contains(Lower(m.content), BotName)
  }

  /** The gate as one condition. */
  lemma ShouldRespondSpec(enabledChannels: set<int>, m: Message)
    ensures ShouldRespond(enabledChannels, m) <==>
      && !m.authorIsBot
      && m.channel in enabledChannels
      && (|| m.mentionsThisBot
          || m.reference == Fetched(true)
          || (m.reference == NoReference && Contains(Lower(m.content), BotName)))
  {
  }

  /** `conversation_context.get(channel, [])`. */
  function ContextOf(contexts: map<int, seq<string>>, channel: int): (c: seq<string>)
    ensures channel !in contexts ==> c == []
    ensures channel in contexts ==> c == contexts[channel]
  {
    if channel in contexts then contexts[channel] else []
  }

  /**
   * What the enable, disable and reset commands answer. `MissingPermission`
   * stands for the `manage_channels` check failing, which these hybrid
   * commands run both as prefix and as slash commands; the body does not run.
   */
  datatype ChannelReply = MissingPermission | AlreadyEnabled | Enabled | NotEnabled | Disabled | ContextReset

  /** The cog's mutable state. */
  class ChatCog {
    var serviceCooldowns: map<string, int>
    var enabledChannels: set<int>
    var conversationContext: map<int, seq<string>>
    /** The personality text that opens every prompt. */
    const personality: string
    /** The reply pools of the fallback. */
    const pools: Pools

    /**
     * Every enabled channel has a context, and the fallback has replies to
     * give. A context can outlive its channel's flag: `on_message` records
     * with `setdefault` after awaiting the answer, so a channel disabled in
     * the meantime gets a context back.
     */
    predicate Valid()
      reads this
    {
      enabledChannels <= conversationContext.Keys && Filled(pools)
    }

    constructor ()
      ensures Valid()
      ensures serviceCooldowns == map[] && enabledChannels == {} && conversationContext == map[]
      ensures personality == Personality && pools == FallbackPools
    {
      FallbackPoolsFilled();
      personality := Personality;
      pools := FallbackPools;
      serviceCooldowns := map[];
      enabledChannels := {};
      conversationContext := map[];
    }

    /** `_set_cooldown`. */
    method SetCooldown(service: string, now: int)
      modifies this
      ensures serviceCooldowns == old(serviceCooldowns)[service := now]
      ensures enabledChannels == old(enabledChannels) && conversationContext == old(conversationContext)
    {
      serviceCooldowns := serviceCooldowns[service := now];
    }

    /**
     * One single-endpoint provider: `None` without a call while on cooldown
     * (or, for Gemini, while no model is configured); otherwise the answer,
     * with a cooldown only when the call failed.
     */
    method CallProvider(service: string, configured: bool, now: int, outcome: ProviderOutcome) returns (r: Option<string>)
      modifies this
      ensures !configured || OnCooldown(old(serviceCooldowns), service, now, DefaultCooldown) ==>
        r == None && serviceCooldowns == old(serviceCooldowns)
      ensures configured && !OnCooldown(old(serviceCooldowns), service, now, DefaultCooldown) ==>
        && r == (if outcome.Answered? then Some(outcome.text) else None)
        && serviceCooldowns == (if outcome.Failed? then old(serviceCooldowns)[service := now] else old(serviceCooldowns))
      ensures enabledChannels == old(enabledChannels) && conversationContext == old(conversationContext)
    {
      if !configured || OnCooldown(serviceCooldowns, service, now, DefaultCooldown) {
        return None;
      }
      match outcome
      case Answered(text) => r := Some(text);
      case NoAnswer => r := None;
      case Failed =>
        SetCooldown(service, now);
        r := None;
    }

    /**
     * `get_huggingface_response`: the models in list order, skipping those on
     * cooldown; the first that generates text answers (with an echoed prompt
     * removed); each tried model that fails is put on cooldown; the service
     * itself is put on cooldown only when no model answered.
     */
    method HuggingFaceResponse(prompt: string, now: int, outcomes: seq<ModelOutcome>) returns (r: Option<string>)
      requires |outcomes| == |HuggingFaceModels|
      modifies this
      ensures r == HuggingFaceResult(old(serviceCooldowns), now, outcomes, prompt)
      ensures serviceCooldowns == HuggingFaceTable(old(serviceCooldowns), now, outcomes)
      ensures r.Some? ==> LastFailure(serviceCooldowns, HuggingFaceService) == LastFailure(old(serviceCooldowns), HuggingFaceService)
      ensures enabledChannels == old(enabledChannels) && conversationContext == old(conversationContext)
    {
      if OnCooldown(serviceCooldowns, HuggingFaceService, now, DefaultCooldown) {
        return None;
      }
      ghost var start := serviceCooldowns;
      var i := 0;
      while i < |HuggingFaceModels|
        invariant 0 <= i <= |HuggingFaceModels|
        invariant serviceCooldowns == FailuresRecorded(start, now, outcomes, i)
        invariant FirstGenerating(start, now, outcomes, 0) == FirstGenerating(start, now, outcomes, i)
        invariant enabledChannels == old(enabledChannels) && conversationContext == old(conversationContext)
      {
        ModelStep(start, now, outcomes, i);
        if ModelAvailable(serviceCooldowns, now, i) {
          match outcomes[i]
          case Generated(text) =>
            ServiceKeyUntouched(start, now, outcomes, i);
            return Some(EchoStripped(text, prompt));
          case OtherPayload =>
          case HttpError =>
            SetCooldown(ModelKey(i), now);
          case Exception =>
            SetCooldown(ModelKey(i), now);
        }
        i := i + 1;
      }
      SetCooldown(HuggingFaceService, now);
      r := None;
    }

    /**
     * `enable_chat`: without `manage_channels` nothing changes; otherwise a
     * new channel is enabled with an empty context and an enabled one is left
     * alone.
     */
    method EnableChat(canManageChannels: bool, channel: int) returns (reply: ChannelReply)
      requires Valid()
      modifies this
      ensures Valid()
      ensures !canManageChannels ==>
        reply == MissingPermission && enabledChannels == old(enabledChannels) && conversationContext == old(conversationContext)
      ensures canManageChannels && channel in old(enabledChannels) ==>
        reply == AlreadyEnabled && enabledChannels == old(enabledChannels) && conversationContext == old(conversationContext)
      ensures canManageChannels && channel !in old(enabledChannels) ==>
        && reply == Enabled
        && enabledChannels == old(enabledChannels) + {channel}
        && conversationContext == old(conversationContext)[channel := []]
      ensures serviceCooldowns == old(serviceCooldowns)
    {
      if !canManageChannels {
        return MissingPermission;
      }
      if channel in enabledChannels {
        return AlreadyEnabled;
      }
      enabledChannels := enabledChannels + {channel};
      conversationContext := conversationContext[channel := []];
      reply := Enabled;
    }

    /** `disable_chat`: with `manage_channels`, an enabled channel loses its flag and its context. */
    method DisableChat(canManageChannels: bool, channel: int) returns (reply: ChannelReply)
      requires Valid()
      modifies this
      ensures Valid()
      ensures !canManageChannels ==>
        reply == MissingPermission && enabledChannels == old(enabledChannels) && conversationContext == old(conversationContext)
      ensures canManageChannels && channel !in old(enabledChannels) ==>
        reply == NotEnabled && enabledChannels == old(enabledChannels) && conversationContext == old(conversationContext)
      ensures canManageChannels && channel in old(enabledChannels) ==>
        && reply == Disabled
        && enabledChannels == old(enabledChannels) - {channel}
        && conversationContext == old(conversationContext) - {channel}
      ensures serviceCooldowns == old(serviceCooldowns)
    {
      if !canManageChannels {
        return MissingPermission;
      }
      if channel !in enabledChannels {
        return NotEnabled;
      }
      enabledChannels := enabledChannels - {channel};
      if channel in conversationContext {
        conversationContext := conversationContext - {channel};
      }
      reply := Disabled;
    }

    /** `reset_chat`: with `manage_channels`, an enabled channel's context becomes empty. */
    method ResetChat(canManageChannels: bool, channel: int) returns (reply: ChannelReply)
      requires Valid()
      modifies this
      ensures Valid()
      ensures !canManageChannels ==>
        reply == MissingPermission && conversationContext == old(conversationContext)
      ensures canManageChannels && channel !in old(enabledChannels) ==>
        reply == NotEnabled && conversationContext == old(conversationContext)
      ensures canManageChannels && channel in old(enabledChannels) ==>
        reply == ContextReset && conversationContext == old(conversationContext)[channel := []]
      ensures enabledChannels == old(enabledChannels) && serviceCooldowns == old(serviceCooldowns)
    {
      if !canManageChannels {
        return MissingPermission;
      }
      if channel !in enabledChannels {
        return NotEnabled;
      }
      if channel in conversationContext {
        conversationContext := conversationContext[channel := []];
      }
      reply := ContextReset;
    }

    /**
     * `on_message`: when the gate lets the message through, the prompt is
     * built from the last three context entries and `get_ai_response` races
     * the five providers: each one is judged by the cooldown table at the
     * start, its result arrives in completion order `order` (the last
     * `5 - inTime` of them after the 15-second deadline), and every failure
     * is stamped with `now`. The reply is the cleaned-up settled answer and
     * the channel's context grows by exactly the user's line and the bot's
     * line. Otherwise nothing changes.
     */
    method OnMessage(m: Message, now: int, o: RaceOutcomes, order: seq<nat>, inTime: nat, pick: nat) returns (reply: Option<string>)
      requires Valid()
      requires o.WellFormed() && IsOrder(order, |RaceServices|) && inTime <= |RaceServices|
      modifies this
      ensures Valid()
      ensures !ShouldRespond(old(enabledChannels), m) ==>
        reply == None && conversationContext == old(conversationContext) && serviceCooldowns == old(serviceCooldowns)
      ensures ShouldRespond(old(enabledChannels), m) ==>
        && m.channel in old(conversationContext)
        && var prompt := BuildPrompt(personality, old(conversationContext)[m.channel], m.content);
        && serviceCooldowns == RaceTable(old(serviceCooldowns), now, o)
        && reply == Some(Cleanup(AiAnswer(pools, Arrivals(RaceResults(old(serviceCooldowns), now, o, prompt), order, inTime), prompt, pick)))
        && conversationContext == old(conversationContext)[m.channel :=
             old(conversationContext)[m.channel] + [m.authorName + ": " + m.content, "IndieGO: " + reply.value]]
      ensures enabledChannels == old(enabledChannels)
    {
      if !ShouldRespond(enabledChannels, m) {
        return None;
      }
      var prompt := BuildPrompt(personality, conversationContext[m.channel], m.content);
      var response := GetAiResponseRace(prompt, now, o, order, inTime, pick);
      var cleaned := Cleanup(response);
      Record(m.channel, [m.authorName + ": " + m.content, "IndieGO: " + cleaned]);
      reply := Some(cleaned);
    }

    /**
     * `get_ai_response` with its providers: every provider is started, the
     * first truthy result in completion order wins, and the failures of all
     * five are recorded. The providers run concurrently in the source; their
     * stamps go to distinct keys and each reads only its own keys, so calling
     * them one after the other here gives the same table.
     */
    method GetAiResponseRace(prompt: string, now: int, o: RaceOutcomes, order: seq<nat>, inTime: nat, pick: nat) returns (response: string)
      requires Valid()
      requires o.WellFormed() && IsOrder(order, |RaceServices|) && inTime <= |RaceServices|
      modifies this
      ensures Valid()
      ensures serviceCooldowns == RaceTable(old(serviceCooldowns), now, o)
      ensures response == AiAnswer(pools, Arrivals(RaceResults(old(serviceCooldowns), now, o, prompt), order, inTime), prompt, pick)
      ensures enabledChannels == old(enabledChannels) && conversationContext == old(conversationContext)
    {
      ghost var start := serviceCooldowns;
      var huggingFace := HuggingFaceResponse(prompt, now, o.models);
      ghost var h := serviceCooldowns;
      DirectStep(start, now, o, 0);
      var gemini := CallProvider(DirectServices[0], o.geminiConfigured, now, o.direct[0]);
      assert serviceCooldowns == DirectTable(start, h, now, o, 1);
      DirectStep(start, now, o, 1);
      var youApi := CallProvider(DirectServices[1], true, now, o.direct[1]);
      assert serviceCooldowns == DirectTable(start, h, now, o, 2);
      DirectStep(start, now, o, 2);
      var perplexity := CallProvider(DirectServices[2], true, now, o.direct[2]);
      assert serviceCooldowns == DirectTable(start, h, now, o, 3);
      DirectStep(start, now, o, 3);
      var ollama := CallProvider(DirectServices[3], true, now, o.direct[3]);
      assert serviceCooldowns == DirectTable(start, h, now, o, 4);
      var results := [gemini, huggingFace, youApi, perplexity, ollama];
      assert results == RaceResults(start, now, o, prompt);
      response := GetAiResponse(pools, Arrivals(results, order, inTime), prompt, pick);
    }

    /**
     * `conversation_context.setdefault(channel, []).append(...)`: appends the
     * lines to the channel's context, starting an empty one if the channel has
     * none, whether or not the channel is still enabled.
     */
    method Record(channel: int, lines: seq<string>)
      requires Valid()
      modifies this
      ensures Valid()
      ensures conversationContext == old(conversationContext)[channel := ContextOf(old(conversationContext), channel) + lines]
      ensures enabledChannels == old(enabledChannels) && serviceCooldowns == old(serviceCooldowns)
    {
      var existing := if channel in conversationContext then conversationContext[channel] else [];
      conversationContext := conversationContext[channel := existing + lines];
    }
  }
}
