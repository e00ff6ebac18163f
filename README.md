# IndieGO bot: a verified model of its decision and string logic

IndieGO is a Discord bot for developer communities, written in Python. Its
command handlers hold small pieces of decision logic between the calls to
Discord and to AI services. This project models that logic in Dafny and
proves what the code promises. It covers:

- the conversational cog's per-service cooldown table, the HuggingFace
  model loop, the "first truthy answer, else fallback" race, the keyword
  fallback responder, prompt building and cleanup, and the
  enable/disable/reset state of channels (`Chat`);
- the heuristic code analyser over the walk of a syntax tree
  (`CodeAnalysis`), and the review embeds built from it (`CodeReview`);
- the requirements estimator and the project-tree renderer
  (`ProjectManagement`);
- subscription end dates and the keyed subscription table (`Subscription`);
- the model server's prompts, categorisation and endpoints (`Serve`);
- the assistant cog's fence stripping, model-service replies, chunked
  explanations and per-user cooldown (`AiAssistant`);
- the multi-provider `codehelp`/`ask` answer splitting (`CodeHelp`);
- the HTTP interaction router (`Interactions`);
- the auto-moderation word list (`AutoMod`), mass role assignment
  (`MassRole`), checkpoint retention and optimizer parameter groups
  (`Train`), the dataset filters and task builder (`PrepareData`), dice,
  polls and trivia (`Fun`), and the owner's admin commands (`Admin`).

`Text` holds the Python string operations the model needs (`split`,
`join`, `strip`, `startswith`, `in`, `lower`, `str`/`int` for integers,
slicing into chunks), each with its own lemmas. `Wrappers` holds `Option`
and `Result`.

Clocks (`time.time()`, `datetime.now()`) and random choices
(`random.choice`, `random.sample`, `random.randint`) are parameters:
a time is an integer number of seconds (a `DateTime` in `Subscription`) and a
choice is an index or a sequence of distinct indices. The AI providers,
Discord, the file system, sqlite, the signature check, the parsers and the
directory listing are parameters too. Each of them is an outcome value or a
function passed in.

The keyword fallback's three reply pools are a value the `Chat` cog holds:
its constructor sets them to the source's fixed texts, and the fallback
functions take them as a parameter.

Where the code and its description disagree, the model follows the code:

- The type-hint check of the analyser tests `isinstance(a, ast.AnnAssign)`
  on function arguments, which never holds, so only a missing return
  annotation triggers it (src/models/code_analysis.py:155-157).
- A subscription started on a day that the target month lacks (31 January
  plus one month) has no end date: `datetime` raises and
  `add_subscription` returns False (src/models/subscription.py:74-78,
  94-96).
- The analyser's performance check looks up `ast.Append`, which the `ast`
  module does not define, at every `for` loop, and `analyze_code` catches
  only `SyntaxError`, so analysing any program with a `for` loop raises
  `AttributeError` (src/models/code_analysis.py:178-179).
- `poll` adds its reactions through the value `send_message` returns, which
  is not a message, so a poll with any option raises after its embed is
  posted and no reaction is added (cogs/fun.py:37-40); see Findings.
- The assistant cog's `"error" in response` test is true for every reply
  of the model service; see Findings.

## Model

| member | source | states |
|---|---|---|
| Chat.NeverFailedIsAvailable | cogs/chat.py:57-61 | a service with no recorded failure reads last failure 0 and is not on cooldown once the clock is past the cooldown length |
| Chat.SetCooldownEffect | cogs/chat.py:57-65 | after a failure is stamped, that service is on cooldown exactly while less than the cooldown has passed, and every other service's status is unchanged |
| Chat.FirstTruthy | cogs/chat.py:294-300 | the position of the first truthy result in completion order: truthy, with nothing truthy before it; none when no result is truthy |
| Chat.Replies | cogs/chat.py:257-280 | the bucket's pool of filled pools has a reply and no empty reply |
| Chat.Choose | cogs/chat.py:257 | `random.choice` returns a member of the pool |
| Chat.ChooseCovers | cogs/chat.py:257 | every member of the pool can be chosen |
| Chat.FallbackPoolsFilled | cogs/chat.py:257-280 | the three fixed pools of the source each have a reply, and none of their replies is the empty string |
| Chat.FallbackResponse | cogs/chat.py:247-280 | the fallback is a non-empty reply from the pool of the bucket the user's line falls in |
| Chat.FallbackCoversPool | cogs/chat.py:247-280 | every reply of the selected bucket is a possible fallback |
| Chat.ClassifySpec | cogs/chat.py:254-280 | the greeting bucket wins whenever a greeting occurs in the lower-cased line; the question bucket applies only without a greeting; the default only when neither occurs |
| Chat.AiAnswerSpec | cogs/chat.py:282-306 | the answer is the first truthy result in completion order, or the fallback for the same prompt when there is none; it is never empty |
| Chat.GetAiResponse | cogs/chat.py:282-306 | the loop over completions returns the answer `AiAnswerSpec` describes |
| Chat.ModelKeysDistinct | cogs/chat.py:90-98 | the four `huggingface_{model}` cooldown keys are pairwise distinct and distinct from the service key |
| Chat.EchoStrippedRemovesPrompt | cogs/chat.py:121-122 | a generated text that starts with the prompt loses it and the surrounding whitespace |
| Chat.FirstGenerating | cogs/chat.py:97-123 | the first model in list order that is off cooldown and generates text; no earlier model qualifies; none when no model qualifies |
| Chat.FailuresRecordedSpec | cogs/chat.py:97-128 | going through the models stamps exactly the keys of the models that were tried and failed, each with the current time, and no other key |
| Chat.Window | cogs/chat.py:375 | `[-3:]`: the last three context entries, or all of them when there are fewer |
| Chat.MarkerFacts | cogs/chat.py:252 | the `User:` marker cannot overlap itself and holds no line break; the prompt tail after the message starts with a line break (also line 379) |
| Chat.PromptTailFree | cogs/chat.py:379 | the text after the prompt's last `User:` marker holds no further marker when the message holds none |
| Chat.FallbackSeesUserMessage | cogs/chat.py:250-252 | the fallback classifies the user's own message, stripped, when the message is one line without the marker (also line 379) |
| Chat.CleanupWithoutPrefixes | cogs/chat.py:385 | a response with none of the three speaker prefixes is only stripped |
| Chat.ShouldRespondSpec | cogs/chat.py:346-369 | the bot answers exactly a non-bot message in an enabled channel that mentions the bot, or else carries a reference whose fetched message is the bot's (a reference of any other kind rules out the name check), or else names "indiego" in any letter case |
| Chat.ChatCog.constructor | cogs/chat.py:22-51 | no enabled channels, no contexts and no cooldowns; the personality text and the fixed fallback pools of the source (also lines 257-280) |
| Chat.ChatCog.SetCooldown | cogs/chat.py:63-65 | only the named service's entry changes, to the current time |
| Chat.ChatCog.CallProvider | cogs/chat.py:67-81 | a provider on cooldown, or Gemini without a model, answers nothing without a call; otherwise the outcome is returned and a cooldown is set only when the call failed (also lines 138-245) |
| Chat.ChatCog.HuggingFaceResponse | cogs/chat.py:83-136 | the result and the new table are those `HuggingFaceResult` and `HuggingFaceTable` give for the table at the call; a call that answers leaves the service's own stamp alone |
| Chat.ChatCog.EnableChat | cogs/chat.py:308-324 | without `manage_channels` nothing changes; otherwise an enabled channel is left alone and a new one is enabled with an empty context; every enabled channel keeps a context |
| Chat.ChatCog.DisableChat | cogs/chat.py:326-343 | without `manage_channels` nothing changes; otherwise a channel that is not enabled is left alone and an enabled one loses its flag and its context |
| Chat.ChatCog.ResetChat | cogs/chat.py:408-424 | without `manage_channels` nothing changes; otherwise an enabled channel's context becomes empty; nothing else changes |
| Chat.ChatCog.OnMessage | cogs/chat.py:346-389 | when the gate passes, the reply is the cleaned answer that the race of the five providers settles on for the prompt built from the last three context entries, the cooldown table becomes the race's table (every provider that was called and failed stamped with the current time), and the channel's context grows by exactly the user's line and the bot's line; otherwise nothing changes |
| Chat.ChatCog.GetAiResponseRace | cogs/chat.py:282-306 | every provider is judged by the cooldown table at the start of the race; the answer is the first truthy result in completion order among those that finish before the deadline, else the fallback; the new table is the race's table |
| Chat.OnCooldown | cogs/chat.py:57-61 | `_is_on_cooldown`: less than the cooldown length has passed since the service's last failure, an unknown service reading 0 |
| Chat.UserMessage | cogs/chat.py:250-252 | the text after the last `User:` marker up to its first line break, stripped; empty when the prompt has no marker |
| Chat.Classify | cogs/chat.py:254-280 | greeting if a greeting keyword occurs in the lower-cased line, else question if a question marker occurs, else default |
| Chat.AiAnswer | cogs/chat.py:294-306 | the text of the first truthy arrival, or the fallback for the same prompt |
| Chat.BuildPrompt | cogs/chat.py:375-379 | the personality, the last three context entries joined by line breaks, the user's message after `User: `, and the closing instruction |
| Chat.Cleanup | cogs/chat.py:385 | every `AI:`, `Assistant:` and `IndieGO:` removed, in that order, then surrounding whitespace |
| Chat.ShouldRespond | cogs/chat.py:347-369 | the gate of `on_message` in its order: bot authors and other channels first, then a mention, a reference to the bot's message, or the bot's name |
| Chat.HuggingFaceResult | cogs/chat.py:83-136 | nothing while the service is on cooldown; otherwise the first model in list order that is off cooldown and generates text answers, with an echoed prompt removed; nothing when none does |
| Chat.HuggingFaceTable | cogs/chat.py:83-136 | the table is unchanged while the service is on cooldown; otherwise the failed models tried before the answering one are stamped, or, when none answered, every failed tried model and then the service itself |
| Chat.HuggingFaceTableElsewhere | cogs/chat.py:83-136 | the HuggingFace call never changes a key other than the service's and the four models' |
| Chat.FailuresOnlyStamp | cogs/chat.py:97-128 | recording model failures either keeps a key's stamp or sets it to the current time, so no cooldown is cleared |
| Chat.ServiceKeysDistinct | cogs/chat.py:69-244 | the cooldown keys `gemini`, `you_api`, `perplexity`, `ollama`, `huggingface` and `huggingface_{model}` never coincide |
| Chat.DirectResult | cogs/chat.py:67-245 | a single-endpoint provider returns its text only when it is configured, off cooldown and answered |
| Chat.DirectTable | cogs/chat.py:67-245 | each single-endpoint provider that was called and failed is stamped with the current time |
| Chat.RaceResults | cogs/chat.py:286-292 | the five results in task-list order, each decided by the table at the start of the race |
| Chat.RaceTable | cogs/chat.py:286-292 | the table after the HuggingFace call and the four single-endpoint providers have recorded their failures |
| Chat.Arrivals | cogs/chat.py:294-303 | `as_completed(tasks, timeout=15)`: the results that finished in time, in completion order, then a timeout for each task still running |
| Chat.DirectTableSpec | cogs/chat.py:67-245 | a single-endpoint provider's key is stamped with the current time exactly when it was called and failed; every other key keeps its value |
| Chat.RaceTableSpec | cogs/chat.py:57-65 | after the race, each single-endpoint provider's key is stamped exactly when it was called and failed, the HuggingFace keys change as its call changes them, every other key is untouched, and no key is ever cleared (also lines 286-292) |
| Chat.RaceResultsOffCooldown | cogs/chat.py:69-70 | a provider that returns anything was off cooldown when the race started (also lines 84-85, 140-141, 185-186, 220-221) |
| Chat.DirectStep | cogs/chat.py:286-292 | the stamps written by other providers never change whether a single-endpoint provider reads as on cooldown |
| Chat.ChatCog.Record | cogs/chat.py:387-389 | `setdefault` then append: the channel's context, or an empty one if it has none, gets exactly the given lines appended, whether or not the channel is enabled; no other channel's context changes |
| Chat.ContextOf | cogs/chat.py:375 | `get(channel, [])`: the stored context, or empty for a channel without one |
| CodeAnalysis.DecisionPointsBounds | src/models/code_analysis.py:76-82 | in a tree whose boolean operations have at least two operands the decision points are never negative, and any branching node makes them positive |
| CodeAnalysis.CalculateComplexity | src/models/code_analysis.py:66-82 | one plus one per `if`/`while`/`for`/`except` node plus `len(values) - 1` per boolean operation, over the walk |
| CodeAnalysis.CollectMembers | src/models/code_analysis.py:106-111 | a collected message comes from some node of the walk, and every node's messages are collected (also lines 145-160) |
| CodeAnalysis.CollectAdvice | src/models/code_analysis.py:106-111 | the loop over the walk collects each node's messages in walk order (also lines 145-160) |
| CodeAnalysis.TooLongReported | src/models/code_analysis.py:106-111 | every function with more than 15 body statements is named in a "too long" suggestion |
| CodeAnalysis.MissingDocstringReported | src/models/code_analysis.py:145-150 | every function or class without a docstring gets an "Add docstring to function/class" entry |
| CodeAnalysis.TypeHintsIff | src/models/code_analysis.py:153-160 | a name gets a type-hint entry exactly when some function of that name has no return annotation |
| CodeAnalysis.NamedMessage | src/models/code_analysis.py:110 | a message with a fixed frame determines the name inside it (also lines 149, 159) |
| CodeAnalysis.LongLineNumbers | src/models/code_analysis.py:98-100 | the 1-based numbers of exactly the lines longer than 80 characters, strictly increasing |
| CodeAnalysis.LineMessages | src/models/code_analysis.py:101-103 | one "Line i exceeds 80 characters" message per number, in order |
| CodeAnalysis.LineMessagesAppend | src/models/code_analysis.py:101-103 | one more line number adds its message at the end |
| CodeAnalysis.LongLineSuggestions | src/models/code_analysis.py:97-103 | the line-length loop reports the long lines' messages in line order |
| CodeAnalysis.MatchedMessagesSpec | src/models/code_analysis.py:125-129 | with distinct messages, a message is reported exactly when its pattern matches, and at most once |
| CodeAnalysis.NotInMatched | src/models/code_analysis.py:125-129 | a message not in the table is never reported |
| CodeAnalysis.CheckSecurity | src/models/code_analysis.py:115-129 | the loop reports the message of each matching pattern, in table order |
| CodeAnalysis.SecurityIssuesSpec | src/models/code_analysis.py:24-29 | each of the four security messages is reported at most once, exactly when its pattern matches (also lines 125-129) |
| CodeAnalysis.GenerateSuggestions | src/models/code_analysis.py:84-113 | the long-line messages in line order, then the long-function messages in walk order |
| CodeAnalysis.CheckBestPractices | src/models/code_analysis.py:131-162 | the docstring advice in walk order, then the type-hint advice in walk order |
| CodeAnalysis.AnalyzeCode | src/models/code_analysis.py:31-64 | a syntax error gives complexity 0 with only "Invalid Python syntax"; a tree with a `for` loop makes the performance check raise `AttributeError`, which escapes because only `SyntaxError` is caught; otherwise the five results are those of the five checks |
| CodeAnalysis.AnalyzePerformance | src/models/code_analysis.py:164-192 | the first `for` loop of the walk raises, because `ast.Append` does not exist; a walk without one gets the join tip once per addition with a string literal operand, in walk order |
| CodeAnalysis.JoinTipIff | src/models/code_analysis.py:182-188 | the join tip is given exactly when some addition has a string literal operand |
| ProjectManagement.RequirementsComplexity | src/cogs/premium_features/project_management.py:140-141 | one point per twenty whitespace-separated words, capped at ten: exactly ten from 200 words on, otherwise the whole number of twenties |
| ProjectManagement.TeamBounds | src/cogs/premium_features/project_management.py:160 | the team range starts at one or more, never ends before it starts, ends at two or more, and at five at most for a score of ten or less |
| ProjectManagement.Considerations | src/cogs/premium_features/project_management.py:143-155 | the four base considerations always come first |
| ProjectManagement.AnalyzeRequirements | src/cogs/premium_features/project_management.py:129-162 | a score between 0 and 10, a time estimate of twice the score in weeks, a team size `low-high developers` with the bounds of `TeamBounds` (1 <= low <= high <= 5), and the considerations for that score |
| ProjectManagement.EstimateFields | src/cogs/premium_features/project_management.py:59-99 | the estimate embed's four fields in order: the score out of 10, the time, the team size, and the considerations one bullet per line |
| ProjectManagement.LargeProjectIff | src/cogs/premium_features/project_management.py:141-155 | the three large-project considerations are appended exactly when the requirements have at least 160 words; otherwise only the four base ones are listed |
| ProjectManagement.RenderItemsShape | src/cogs/premium_features/project_management.py:115-122 | the tree renders one line per file and per directory, each starting with the prefix |
| ProjectManagement.RenderItemShape | src/cogs/premium_features/project_management.py:116-122 | one item renders one line per node below it, each starting with the prefix |
| ProjectManagement.RenderDirectoriesShape | src/cogs/premium_features/project_management.py:118-120 | the entries of a directory dictionary render one line per node, each starting with the prefix |
| ProjectManagement.RenderDirectoryLines | src/cogs/premium_features/project_management.py:118-120 | a directory's own `└── name/` line comes first, then its contents four spaces deeper, then its siblings |
| ProjectManagement.StructureBuilder.constructor | src/cogs/premium_features/project_management.py:112 | the structure list starts empty |
| ProjectManagement.StructureBuilder.BuildTree | src/cogs/premium_features/project_management.py:115-122 | `build_tree` appends exactly the rendering of the items under the prefix |
| ProjectManagement.StructureBuilder.BuildDirectories | src/cogs/premium_features/project_management.py:118-120 | the dictionary loop appends exactly the rendering of its entries |
| ProjectManagement.GenerateStructure | src/cogs/premium_features/project_management.py:101-127 | the text is the project line `name/` followed by the tree rendered four spaces in, joined by line breaks |
| ProjectManagement.StructureTextLines | src/cogs/premium_features/project_management.py:124-127 | one line for the project plus one per node, starting with `name/` |
| ProjectManagement.FindTemplate | src/cogs/premium_features/project_management.py:28 | the template of that name when there is one; none exactly when no template has that name (also line 52) |
| ProjectManagement.CreateProject | src/cogs/premium_features/project_management.py:18-56 | an unknown template is answered with the list of templates exactly when no template has that name; a known one gets its structure in a code block and its setup instructions |
| Subscription.DaysInMonth | src/models/subscription.py:74-78 | every month has 28 to 31 days, the range `datetime` checks the day against |
| Subscription.EndDate | src/models/subscription.py:74-78 | the end date keeps the start's day and lands `months` months on, with floor division by twelve; none when that day does not exist in the target month |
| Subscription.EndOfJanuaryRefused | src/models/subscription.py:74-78 | a one-month subscription started on 31 January has no end date, so `add_subscription` returns False (also lines 94-96) |
| Subscription.EarlyDaysAlwaysEnd | src/models/subscription.py:74-78 | a start on day 1 to 28 always has an end date within the year range |
| Subscription.YearLength | src/models/subscription.py:74-78 | a year has 366 days when it is a leap year and 365 otherwise |
| Subscription.MonthsAfterFebruary | src/models/subscription.py:74-78 | the months after February are the same length in every year |
| Subscription.SameDateNextYear | src/models/subscription.py:74-78 | the same date a year later is at least 365 days on |
| Subscription.TwelveMonthSpan | src/models/subscription.py:73-78 | a twelve-month subscription that gets an end date lasts at least 364 whole days from the start's time of day to the end's midnight |
| Subscription.TwelveMonthsLater | src/models/subscription.py:74-78 | twelve months on is the same month and day of the next year |
| Subscription.WholeDays | src/models/subscription.py:73-78 | 365 days less part of a day still holds 364 whole days |
| Subscription.Lookup | src/models/subscription.py:37-51 | a row is found exactly when the id is stored with the same guild flag, and it is that row |
| Subscription.Upsert | src/models/subscription.py:81-92 | `INSERT OR REPLACE` keyed by the id alone: the id's row becomes the new row, every other row stays (also line 17) |
| Subscription.LookupAfterUpsert | src/models/subscription.py:81-92 | after an add, the same id and kind find the new row, the same id with the other kind finds nothing, and other ids read as before (also lines 17, 26-51) |
| Subscription.UpsertReplacesOtherKind | src/models/subscription.py:81-92 | adding a guild subscription under a user's id, or the reverse, makes the earlier row unreachable (also line 17) |
| Subscription.SubscriptionStore.constructor | src/models/subscription.py:12-24 | the table starts empty |
| Subscription.SubscriptionStore.GetSubscription | src/models/subscription.py:26-51 | the lookup of the id and kind in the table |
| Subscription.SubscriptionStore.AddSubscription | src/models/subscription.py:53-96 | False with no write exactly when the end date does not exist; otherwise the id's row is replaced by the tier, start, end date and kind, and a lookup then finds that tier |
| Serve.KindOf | ai_model/serve.py:119-126 | the security, performance and style templates are chosen by exactly those three names; every other type gets the comprehensive one |
| Serve.PromptEmbedsCode | ai_model/serve.py:119-126 | the prompt is the template's header, the code unchanged, then the template's footer |
| Serve.CategoryOf | ai_model/serve.py:167-173 | a line is a security issue when its lower-case form contains "security", else a performance tip when it contains "performance", else a style suggestion when it contains "style" |
| Serve.LinesOf | ai_model/serve.py:167-173 | a category's list holds only lines of the text that have that category |
| Serve.LinesOfSubsequence | ai_model/serve.py:167-173 | each category list keeps the lines in their original order |
| Serve.CategoriesPartition | ai_model/serve.py:167-173 | every line lands in at most one list: the three lists and the uncategorised lines add up to the line count |
| Serve.LinesOfMembers | ai_model/serve.py:167-173 | a line is in a category's list exactly when it has that category |
| Serve.Categorise | ai_model/serve.py:163-179 | the loop fills the three lists with the lines of each category |
| Serve.AnalyzeCode | ai_model/serve.py:116-185 | a generation error becomes an error response; otherwise the analysis carries the type, the first line as summary and the rest as details, and the three category lists exactly when the type is "all" |
| Serve.SummaryAndDetails | ai_model/serve.py:157-158 | the summary and the details joined with line breaks give back the whole analysis text |
| Serve.GenerateEndpoint | ai_model/serve.py:74-113 | 503 exactly while the server is not initialised; otherwise the generated text or the error message (also lines 202-206) |
| Serve.AnalyzeEndpoint | ai_model/serve.py:208-212 | 503 exactly while the server is not initialised; otherwise the error message, or the analysis: the first line as summary and the rest as details, with the category lists exactly for the type "all", each holding the lines of its category |
| Serve.AnalysisOf | ai_model/serve.py:150-181 | the analysis of a generated text: the first line is the summary and the rest the details, with the three category lists exactly for the type "all", each holding the lines of its category in order |
| AiAssistant.Unwrap | cogs/ai_assistant.py:130 | `code[3:-3]`: three characters off each end, or the empty string for fewer than six characters |
| AiAssistant.StripFenceUnfenced | cogs/ai_assistant.py:129 | a text that does not both start and end with three backticks is sent unchanged |
| AiAssistant.StripFence | cogs/ai_assistant.py:129-133 | a text that starts and ends with three backticks loses them, then everything up to and including its first line break when it has one; any other text is unchanged |
| AiAssistant.StripFenceNoNewline | cogs/ai_assistant.py:129-133 | a fenced text with no line break inside loses exactly the three backticks at each end |
| AiAssistant.StripFenceRoundTrip | cogs/ai_assistant.py:129-133 | a fenced block with a language line gives back exactly its body (also lines 190-194, 232-236, 270-274) |
| AiAssistant.OccursAfterFree | cogs/ai_assistant.py:132-133 | the first line break of `a + t` is not inside a line-break-free `a` |
| AiAssistant.Serialize | ai_model/serve.py:47-51 | the service's JSON reply always has all three keys of its response model, and `error` is non-null exactly for an error response (also lines 202-212) |
| AiAssistant.CallModelApi | cogs/ai_assistant.py:45-65 | status 200 gives the service's reply; any other status gives only `error: API error: <status>`; an exception gives only `error: API request failed: <message>` |
| AiAssistant.ErrorKeyAlwaysPresent | cogs/ai_assistant.py:145-147 | as written, the `"error" in response` test is true for every reply, so a successful analysis is reported as the error `None` |
| AiAssistant.HasErrorIff | cogs/ai_assistant.py:56-65 | the corrected test reports an error exactly for a failed request, a status other than 200, or an error reply (also lines 145-147) |
| AiAssistant.RequestFor | cogs/ai_assistant.py:136-143 | every command sends the stripped code with a maximum length of 1024; only `explain` generates, with the explanation prompt around the code (also lines 197-204, 239-247, 277-284) |
| AiAssistant.BulletedEmpty | cogs/ai_assistant.py:159 | a bulleted list is empty exactly when there are no items (also lines 218-219) |
| AiAssistant.JoinHeadPrefix | cogs/ai_assistant.py:218 | a join is at least as long as its first piece |
| AiAssistant.CategoryField | cogs/ai_assistant.py:158-182 | a category gives one field when its list is non-empty and none otherwise |
| AiAssistant.ReviewEmbed | cogs/ai_assistant.py:149-182 | the review embed's description is the summary; the category fields carry the source's labels with their emoji prefixes as the file spells them |
| AiAssistant.DetailsEmbed | cogs/ai_assistant.py:210-224 | the optimisation and improvement embeds have the summary as description and at most one details field (also lines 290-304) |
| AiAssistant.DetailsFieldIff | cogs/ai_assistant.py:218-224 | the details field is shown exactly when the analysis has detail lines (also lines 298-304) |
| AiAssistant.ExplanationReplySpec | cogs/ai_assistant.py:256-264 | the explanation embeds' descriptions concatenate back to the explanation, each is 1 to 1900 characters, all but the last exactly 1900; only the first has the plain title |
| AiAssistant.ExplanationReply | cogs/ai_assistant.py:254-264 | one embed per 1900-character chunk of the explanation, titled "Code Explanation" for the first and "Code Explanation (continued)" for the rest |
| AiAssistant.CodeCommandReply | cogs/ai_assistant.py:125-306 | with the corrected error test: an error is reported with its text; otherwise an analysis command shows the summary and `explain` sends the chunked explanation |
| AiAssistant.ReviewFields | cogs/ai_assistant.py:158-182 | the review shows one field per non-empty category |
| AiAssistant.CooldownWindow | cogs/ai_assistant.py:70-80 | after an answer at time t the user is refused exactly until t plus 60 seconds |
| AiAssistant.CooldownPerUser | cogs/ai_assistant.py:70-80 | one user's cooldown never changes whether another user is refused |
| AiAssistant.Assistant.constructor | cogs/ai_assistant.py:34-35 | no cooldowns at the start |
| AiAssistant.Assistant.Ask | cogs/ai_assistant.py:67-95 | a user on cooldown is refused and nothing changes; otherwise both answers are sent and the cooldown is set a minute after the answer; a provider that raises ends the command with no cooldown |
| CodeReview.CleanInputRoundTrip | src/cogs/premium_features/code_review.py:24-26 | a Discord code block of backticks with a `python` language line gives back exactly its body |
| CodeReview.CleanInput | src/cogs/premium_features/code_review.py:24-26 | backticks stripped from both ends, then whitespace, then a leading `python` line of seven characters removed once |
| CodeReview.LanguageBlock | src/cogs/premium_features/code_review.py:24-26 | the language line followed by a body that ends in neither a backtick nor whitespace survives the strips and is then cut off |
| CodeReview.CleanInputKeeps | src/cogs/premium_features/code_review.py:24-26 | code without backticks, without surrounding whitespace and without a language line is analysed as it is |
| CodeReview.ComplexityLabel | src/cogs/premium_features/code_review.py:40-42 | "(High)" exactly above 7, "(Medium)" exactly from 5 to 7, "(Good)" exactly at 4 or below |
| CodeReview.NonEmpty | src/cogs/premium_features/code_review.py:46-72 | a section is shown exactly when its list is non-empty |
| CodeReview.NonEmptyInOrder | src/cogs/premium_features/code_review.py:46-72 | the shown sections keep their order |
| CodeReview.ReviewFields | src/cogs/premium_features/code_review.py:38-44 | the first field is always the complexity score with its label |
| CodeReview.ReviewSections | src/cogs/premium_features/code_review.py:38-72 | a section is shown exactly when its list is non-empty, in the order security, best practices, performance, suggestions, after the score |
| CodeReview.OptimizeFields | src/cogs/premium_features/code_review.py:93-104 | exactly one field: the performance tips when there are any, otherwise the no-optimisation note |
| CodeHelp.ProviderAnswer | cogs/ai-assistant.py:18-48 | a provider's answer is its text, or for an exception the provider's error prefix followed by the message |
| CodeHelp.SystemPromptFor | cogs/ai-assistant.py:62-66 | every provider but Gemini is given the system prompt (also lines 87-91) |
| CodeHelp.SplitAnswer | cogs/ai-assistant.py:69-74 | an answer of at most 2000 characters is one part; a longer one is cut into 1990-character chunks (also lines 94-99) |
| CodeHelp.SplitAnswerSpec | cogs/ai-assistant.py:69-74 | the parts concatenate back to the answer and none exceeds 2000 characters; a split answer has at least two parts, each 1 to 1990 long, all but the last exactly 1990 (also lines 94-99) |
| CodeHelp.Messages | cogs/ai-assistant.py:69-74 | one message per part: `ask` sends the parts bare, `codehelp` sends each between code fences (also lines 94-99) |
| CodeHelp.Answer | cogs/ai-assistant.py:50-99 | the chosen provider's answer always goes out in at least one message |
| CodeHelp.ShortAnswerOneMessage | cogs/ai-assistant.py:73-74 | a short answer from any provider is sent as exactly one message (also lines 98-99) |
| Interactions.HandleCommand | src/api/interactions.py:41-63 | always a channel message (type 4); the help embed exactly for `help`, "Unknown command" otherwise |
| Interactions.HandleComponent | src/api/interactions.py:65-87 | a message update (type 7) with the components removed exactly for an id starting with `ticket_`; the unknown-component message otherwise |
| Interactions.Route | src/api/interactions.py:25-39 | a body without a type fails the request; type 2 is answered by the command handler for its name and type 3 by the component handler for its id, a missing name or id failing the request; any other type is answered with a pong |
| Interactions.MissingHeadersRejected | src/api/interactions.py:11-15 | a missing or empty signature or timestamp header gives 401 whatever the body |
| Interactions.OnlyVerifiedAnswered | src/api/interactions.py:14-22 | a response is produced only when the signature verifies over the timestamp followed by the body; a bad signature gives 401 |
| Interactions.TicketButtonsRemoved | src/api/interactions.py:36-37 | a ticket button updates the message and removes its components (also lines 69-70, 79-87) |
| Interactions.HandleInteraction | src/api/interactions.py:9-39 | missing headers give 401 before the body is read; a malformed signature fails the request and a bad one gives 401; a verified body that does not parse fails the request, and one that parses is answered by `Route` |
| Interactions.VerifiedCommandAnswered | src/api/interactions.py:9-33 | a verified slash-command body is answered by the command handler for its name, with a channel message |
| AutoMod.InsideWordNoMatch | cogs/automod.py:22 | a word that starts and ends with a word character is not matched where a word character comes right before or after it |
| AutoMod.StandaloneWordMatches | cogs/automod.py:22 | a word standing between non-word characters, or at either end, is matched |
| AutoMod.RemoveFirst | cogs/automod.py:86 | `list.remove`: an absent word leaves the list unchanged; a present one makes it one shorter and takes exactly one copy of the word out |
| AutoMod.RemoveFirstAt | cogs/automod.py:86 | what comes before the first occurrence and everything after it stay, in order |
| AutoMod.RemoveAfterAdd | cogs/automod.py:69 | removing a word just added, which was not listed before, gives back the earlier list (also line 86) |
| AutoMod.AutoModCog.constructor | cogs/automod.py:9-15 | the filter starts disabled with no words |
| AutoMod.AutoModCog.Setup | cogs/automod.py:49-63 | the body runs exactly when the caller is admitted (an administrator for the prefix command, anyone for the slash twin); it then enables the filter; the word list is never touched |
| AutoMod.AutoModCog.AddBadWord | cogs/automod.py:65-79 | an admitted caller appends the word, duplicates included; a refused one changes nothing; the flag is unchanged |
| AutoMod.AutoModCog.RemoveBadWord | cogs/automod.py:81-101 | for an admitted caller the removal reply is sent exactly when the word was listed, and its first occurrence is taken out; a refused caller, or an unlisted word, changes nothing |
| AutoMod.AutoModCog.ShouldDelete | cogs/automod.py:17-25 | a message is deleted exactly when its author is not a bot, the filter is on and some listed word occurs in it between word boundaries, ignoring case |
| MassRole.KindOf | cogs/massrole.py:28 | the lower-cased file name picks Excel for `.xlsx`, otherwise PDF for `.pdf`, otherwise the unsupported-format reply (also lines 33-50) |
| MassRole.Member | cogs/massrole.py:65-67 | a member found by name wins; an entry that is not all digits is looked up by name only |
| MassRole.Cleaned | cogs/massrole.py:60-62 | the entries kept by the loop are the non-blank ones after trimming |
| MassRole.Select | cogs/massrole.py:69-82 | a bucket's list holds at most the cleaned entries |
| MassRole.RecordMatches | cogs/massrole.py:64-82 | one pass over an entry keeps the running counts and lists in step with a bucket-by-bucket reading of the entries so far |
| MassRole.TallyIsSelection | cogs/massrole.py:52-82 | the not-found and permission lists are the cleaned entries in those buckets, in input order; the count is the number assigned; one error message is sent per HTTP failure |
| MassRole.SelectPartition | cogs/massrole.py:64-82 | every cleaned entry lands in exactly one of the four outcomes |
| MassRole.SelectMembers | cogs/massrole.py:64-82 | an entry is in a bucket's list exactly when it is one of the entries and its outcome is that bucket |
| MassRole.SelectInOrder | cogs/massrole.py:64-82 | a bucket's list keeps the input order |
| MassRole.TallyAccounts | cogs/massrole.py:59-82 | the successes, the not-found entries, the permission errors and the HTTP errors add up to the non-blank entries |
| MassRole.TallyOf | cogs/massrole.py:52-82 | the count, the two error lists and the sent messages after the loop has handled every entry in order |
| MassRole.Shown | cogs/massrole.py:87-91 | `[:10]`: at most ten entries, a prefix of the list, the whole list when it is no longer |
| MassRole.Overflow | cogs/massrole.py:88-93 | the "...and N more" note is present exactly for a list longer than ten |
| MassRole.Section | cogs/massrole.py:86-93 | a section is present exactly when its list is non-empty |
| MassRole.Summary | cogs/massrole.py:85-93 | the success line with the count, then the not-found section and the permission section |
| MassRole.Replies | cogs/massrole.py:26-95 | an unsupported file gets only the format reply; otherwise the processing note, one message per HTTP failure, then the summary |
| MassRole.AssignAll | cogs/massrole.py:52-82 | the loop over the entries computes the count, the two lists and the error messages of `TallyIsSelection` |
| MassRole.BuildSummary | cogs/massrole.py:84-93 | the summary built piece by piece is the success line followed by the two sections |
| MassRole.ProcessFile | cogs/massrole.py:26-95 | exactly the messages of `Replies`, in order |
| MassRole.SectionListsFirstTen | cogs/massrole.py:87-93 | a section's header gives the list's full length, then the first ten entries can be read back one per line, then comes the overflow note |
| MassRole.OverflowCounts | cogs/massrole.py:88-93 | a list longer than ten shows ten entries and notes the number left out |
| Train.PruneOnlyAfterSave | ai_model/train.py:291-303 | pruning runs only at a step where a checkpoint is saved, and never while `save_total_limit` is unset or zero |
| Train.ShouldSave | ai_model/train.py:291-293 | a checkpoint is saved when `save_steps` is set, not zero, and divides the completed steps |
| Train.CheckpointName | ai_model/train.py:299 | every saved directory is named `checkpoint-<step>` |
| Train.Checkpoints | ai_model/train.py:304-307 | the listing's entries that start with `checkpoint-`, exactly those, in listing order |
| Train.CheckpointPieces | ai_model/train.py:310 | `checkpoint-<rest>` split at dashes is `checkpoint` followed by the pieces of the rest, so the sort key is the rest's first piece |
| Train.NoDashInHead | ai_model/train.py:310 | the word `checkpoint` holds no dash |
| Train.Insert | ai_model/train.py:308-311 | inserting a name adds exactly that name |
| Train.InsertSorted | ai_model/train.py:308-311 | inserting into a list sorted by the key keeps it sorted |
| Train.InsertBound | ai_model/train.py:308-311 | inserting keeps a lower bound on the keys |
| Train.SortBy | ai_model/train.py:308-311 | `sorted` returns a permutation of the checkpoints |
| Train.SortBySorted | ai_model/train.py:308-311 | the result is in increasing order of the step number |
| Train.ToRemove | ai_model/train.py:314-316 | nothing when there are at most `limit`; the first `len - limit` otherwise; and for a negative limit, with Python's slice clamping, all of them |
| Train.DeleteOldest | ai_model/train.py:314-324 | the deletion loop deletes exactly the names `ToRemove` gives, oldest first |
| Train.Retention | ai_model/train.py:304-316 | the deletions fail exactly when some checkpoint name has no integer after its first dash, where an integer may group its digits with single underscores as `int` allows |
| Train.PruneAtStep | ai_model/train.py:291-324 | nothing is deleted unless pruning runs; otherwise the deletions of `Retention` |
| Train.ToRemoveOldest | ai_model/train.py:314-316 | with a positive limit the removed and kept parts make up the sorted list, the kept part has `limit` names when there are more, and nothing removed ranks above anything kept |
| Train.RetentionKeepsNewest | ai_model/train.py:303-316 | with a positive limit exactly `len - limit` checkpoints are deleted when there are more, none otherwise, and the deleted and kept ones are all the checkpoints |
| Train.RetentionDeletesOldest | ai_model/train.py:308-316 | no deleted checkpoint has a higher step number than one that is kept |
| Train.RetentionDeletesCheckpoints | ai_model/train.py:304-324 | every name whose path is handed to `rm -rf` is a `checkpoint-` entry of the listing |
| Train.Having | ai_model/train.py:158-164 | a group holds at most the named parameters |
| Train.ParameterGroups | ai_model/train.py:155-167 | two groups: the decayed one with the given weight decay, then the exempt one with 0.0 |
| Train.GroupsPartition | ai_model/train.py:155-167 | every named parameter is in exactly one of the two groups |
| Train.GroupMembers | ai_model/train.py:155-167 | a parameter is in the exempt group exactly when its name contains `bias` or `LayerNorm.weight` |
| Train.UpdateStepsPerEpoch | ai_model/train.py:178-180 | the ceiling of batches over accumulation steps; a zero accumulation setting raises |
| Train.OneStepPerBatch | ai_model/train.py:178-180 | with one accumulation step every batch is an update step |
| PrepareData.CountCharAppend | ai_model/prepare_data.py:86 | the line breaks of two texts joined are those of each |
| PrepareData.CountCharNone | ai_model/prepare_data.py:86 | a text without the character counts none of it |
| PrepareData.CountCharAbsent | ai_model/prepare_data.py:86 | a text that does not contain the character counts none of it |
| PrepareData.SplitCount | ai_model/prepare_data.py:86 | `split` on a character gives one piece more than the character occurs |
| PrepareData.LongCodeIff | ai_model/prepare_data.py:86 | more than five pieces after splitting at line breaks is at least five line breaks |
| PrepareData.CodeExamples | ai_model/prepare_data.py:76-92 | the kept examples are code texts of the input with more than five lines, typed `code` |
| PrepareData.ProcessPythonCode | ai_model/prepare_data.py:76-92 | the loop keeps the examples `CodeExamples` gives |
| PrepareData.DocExamples | ai_model/prepare_data.py:94-110 | the kept examples are documentation texts of the input longer than 100 characters, typed `documentation` |
| PrepareData.ProcessDocumentation | ai_model/prepare_data.py:94-110 | the loop keeps the examples `DocExamples` gives |
| PrepareData.QaExamples | ai_model/prepare_data.py:112-130 | at most one example per pair, each typed `qa` |
| PrepareData.ProcessStackOverflow | ai_model/prepare_data.py:112-130 | the loop keeps the examples `QaExamples` gives |
| PrepareData.Positions | ai_model/prepare_data.py:81-90 | the positions a filter keeps, strictly increasing, holding a position exactly when the filter keeps its element |
| PrepareData.CodeInOrder | ai_model/prepare_data.py:81-90 | the k-th code example is the input at the k-th position with more than five lines: input order is kept and nothing else is |
| PrepareData.DocInOrder | ai_model/prepare_data.py:99-108 | the k-th documentation example is the input at the k-th position longer than 100 characters |
| PrepareData.QaInOrder | ai_model/prepare_data.py:117-128 | the k-th question and answer example is the template text of the pair at the k-th position whose sides are both longer than 50 characters |
| PrepareData.CodeKeptIff | ai_model/prepare_data.py:86 | a code text is kept exactly when it is in the input and has more than five lines |
| PrepareData.DocKeptIff | ai_model/prepare_data.py:104 | a documentation text is kept exactly when it is in the input and is longer than 100 characters |
| PrepareData.QaKeptIff | ai_model/prepare_data.py:124-128 | a pair whose question and answer are both longer than 50 characters is kept with the template as its text, and every kept example comes from such a pair |
| PrepareData.QaTextPlaces | ai_model/prepare_data.py:126 | the question follows `Question: ` and the answer follows the blank line and `Answer: ` |
| PrepareData.WrapShape | ai_model/prepare_data.py:143-161 | a task text is the task's prefix, the source text unchanged, then the task's suffix, with the task's type |
| PrepareData.Tasks | ai_model/prepare_data.py:143-161 | one wrapped example per sampled source, in the order sampled |
| PrepareData.Picked | ai_model/prepare_data.py:164 | the sampled question and answer examples as they are, in the order sampled |
| PrepareData.AppendTasks | ai_model/prepare_data.py:143-161 | one task loop appends exactly that task's examples |
| PrepareData.CreateTrainingExamples | ai_model/prepare_data.py:132-166 | the four loops build the explanations, generations, improvements and sampled pairs in that order |
| PrepareData.TrainingExamplesCount | ai_model/prepare_data.py:143-164 | there are twice min(1000, code) plus min(1000, docs) plus min(1000, pairs) examples |
| PrepareData.TrainingExamplesBlocks | ai_model/prepare_data.py:140-166 | the result is four consecutive blocks: explanations of the sampled code, generations from the sampled documentation, improvements of the sampled code, then the sampled pairs |
| PrepareData.TrainingExamples | ai_model/prepare_data.py:132-166 | the explanation tasks over the sampled code, the generation tasks over the sampled documentation, the improvement tasks over a second sample of code, then the sampled pairs |
| Fun.ParseDice | cogs/fun.py:11-18 | the dice text is accepted exactly when splitting at `d` gives two pieces that are both integers, underscore-grouped digits included |
| Text.UnderscoreSeparated | cogs/fun.py:14 | `int` reads the underscore-grouped `1_000` as 1000 |
| Text.MisplacedUnderscores | cogs/fun.py:14 | a doubled, leading or trailing underscore is refused by `int` |
| Fun.Roll | cogs/fun.py:11-18 | the format reply exactly for an unparsable text or a positive count with a limit below 1; otherwise one value per die, none for a count of zero or less, each between 1 and the limit |
| Fun.EveryFaceReachable | cogs/fun.py:15 | every face of a die can come up |
| Fun.RollDigitDice | cogs/fun.py:11-18 | `MdN` with two non-zero digits rolls M values, each from 1 to N |
| Fun.ParseDigitDice | cogs/fun.py:14 | `MdN` with two digits parses to the pair (M, N) |
| Fun.SplitDigitDice | cogs/fun.py:14 | two digits around a `d` split into the two digits |
| Fun.ParseSmall | cogs/fun.py:14 | a one-digit text parses to its digit |
| Fun.RollWithoutSeparator | cogs/fun.py:14-17 | a text with no `d` in it is refused with the format reply |
| Fun.RollThreePieces | cogs/fun.py:14-17 | three digits joined by two `d`s are refused with the format reply |
| Fun.Lines | cogs/fun.py:32-36 | one description line per option |
| Fun.DescriptionLines | cogs/fun.py:32-36 | the loop builds the line `reaction option` for each option, in order |
| Fun.Poll | cogs/fun.py:24-40 | more than ten options are refused exactly; otherwise the question is the title and the option lines joined by line breaks are the description, no reaction is added, and the command raises exactly when there is an option |
| Fun.PollWithReactions | cogs/fun.py:24-40 | the intended poll: refused as above, otherwise the same embed with one distinct reaction per option, each the one its option's line starts with, and no raise |
| Fun.DescriptionReadsBack | cogs/fun.py:30-36 | line i of the description starts with reaction i, and the lines read back from the description when no option holds a line break |
| Fun.ReactionNoBreak | cogs/fun.py:30-34 | no reaction holds a line break |
| Fun.NoBreakInConcat | cogs/fun.py:34 | joining two texts without line breaks makes none |
| Fun.Trivia | cogs/fun.py:42-65 | two messages are sent, the first being one of the five questions |
| Fun.TriviaReply | cogs/fun.py:56-65 | "Correct!" exactly when the answer equals the correct one ignoring case; the timeout reply names the correct answer |
| Fun.LowerIdempotent | cogs/fun.py:62 | lower-casing twice is lower-casing once |
| Fun.TriviaIgnoresCase | cogs/fun.py:62 | answers that differ only in letter case get the same reply, and the correct answer is always accepted |
| Admin.Mentions | cogs/admin.py:80 | one mention per team member |
| Admin.MentionNoBreak | cogs/admin.py:80 | no mention `<@id>` holds a line break |
| Admin.TeamFieldReadsBack | cogs/admin.py:78-82 | the "Team Members" field, split at line breaks, gives back one mention per entry of the team list, in order, duplicates included |
| Admin.AboutEmbed | cogs/admin.py:58-82 | the about embed: title, description, the creator, support server and website fields, and the team members one mention per line |
| Admin.AdminCog.constructor | cogs/admin.py:10-13 | no premium users, and the owner as the only team member |
| Admin.AdminCog.Gift | cogs/admin.py:28-41 | anyone but the owner is refused and nothing changes; a tier other than pro, team or enterprise is refused and nothing changes; otherwise the user's entry is set or overwritten to the tier and an end date 30 days from now, and the team is untouched |
| Admin.AdminCog.Team | cogs/admin.py:43-50 | anyone but the owner is refused and nothing changes; otherwise the id is appended, even one already listed |
| Admin.AdminCog.About | cogs/admin.py:52-84 | refused exactly to callers not on the team list; team members get the about embed listing the team; the owner is always admitted |

## Left out

- Concurrency: `asyncio.as_completed` and its 15-second timeout, `wait_for`, typing indicators and sleeps. `get_ai_response` is modelled over the sequence of arrivals in completion order, with a timeout as an arrival that is not truthy; the completion order and the number of providers that finish in time are parameters.
- Chat.ChatCog.OnMessage: event handlers run one at a time; each command and each `on_message` is modelled as one atomic step, although the source's handlers interleave at every `await`. `Record` models the `setdefault` on its own, but `OnMessage` reads the context and records in one step, so the model never shows a `disable_chat` that runs during the awaited answer, after which the source leaves a context for a channel that is no longer enabled.
- A failed permission check: the error that `commands.has_permissions` raises goes to discord.py's error handling, whose reply is not modelled; the model only says the command body does not run.
- Chat.ChatCog.OnMessage: every failure stamp of one race carries the same clock reading `now`, and the stamps of providers still running when an answer wins, or when the deadline passes, are counted as written by the time `on_message` returns, whereas the source writes them whenever those abandoned tasks finish.
- Provider adapters (Gemini, You.com, Perplexity, Ollama, OpenAI and Anthropic clients, aiohttp): each call is an outcome value. The JSON line parsing of You.com and the content list returned by the Anthropic client are not modelled.
- Discord I/O: replies, embeds and their colours, icons, reactions as API calls, `fetch_message`, the reply-retry loop of `on_message`, logging channels and the `warn` commands of the auto-moderation cog, which only send messages.
- The file system and storage: `premium_users.json` (`on_ready`, `save_premium_users`), sqlite in the subscription store, the temporary Excel and PDF files, gzip and JSON reading, dataset downloads, and `rm -rf` of checkpoints (modelled as the list of names whose paths are handed to it).
- Train.RetentionDeletesCheckpoints: states which names are handed to `os.system(f"rm -rf {path}")`, not which paths the shell deletes; the shell word-splits and expands the path, so a listed name with a space, a glob or `$(...)` can delete other paths or run a command, and that is not modelled.
- The `ping` command of the admin cog: its latency is a float formatted to two decimals.
- CodeAnalysis.AnalyzePerformance: `isinstance(x, ast.Str)` is taken to hold for string literals, as on the Python versions that still define `ast.Str`.
- Neural-network code: the model, the tokenizer, generation, the training step loop and the learning-rate schedule. A generation is a `Result` passed in.
- Ed25519 verification and `json.loads` in the interaction endpoint are functions passed in; a missing key the routing needs is a server error.
- `ast.parse` is represented by the sequence of nodes `ast.walk` visits, reduced to what the analyser reads; the four security regular expressions are reduced to substring tests.
- Unicode: `lower()` and `\w` are modelled on ASCII letters and digits; `isdigit`/`int` accept ASCII digits only (with `int`'s underscore grouping); lengths count Dafny characters, not Python code points.
- Time: `time.time()` is an integer second count; end dates are second counts or `Date` values, never ISO strings; `timedelta(days=30)` is 30 × 86400 seconds.
- The random-choice commands of the fun cog (`choose`, `codechallenge`, `quote`, `joke`) pick from fixed lists and are left out; the trivia `wait_for` filter on author and channel is left out, and the answer is given as an `Option`.
- Placeholder cogs and bootstrap code are not part of this model.
- AutoMod.AutoModCog.ShouldDelete: a bad word is matched as literal text between word boundaries; regular-expression metacharacters in a word, and the `re.error` an invalid pattern raises, are not modelled.
- MassRole.Cleaned: states that the kept entries are non-empty but not that each is a fixed point of `strip`, because that property is too costly for the solver.
- Train.SortBy: states that the result is a sorted permutation but not that the sort is stable.
- Train.UpdateStepsPerEpoch: computes the ceiling exactly on integers; the float division of the source is not modelled.
- Fun.Roll: a send failure for an over-long result, which the same `except` turns into the format reply, is not modelled.
- Fun.Trivia: the question is picked by an index passed in, reduced modulo five.
- AiAssistant.Assistant.Ask: the two providers' raw responses stand for `result['choices'][0]['text']`; a provider that raises ends the command.

## Findings

| source | as written | input that shows it | evidently intended | confidence | as-written member | corrected member |
|---|---|---|---|---|---|---|
| cogs/ai_assistant.py:145-147 | `if "error" in response` tests for the key, and the model service always serialises `error` (as null on success; ai_model/serve.py:47-51, 208-212) | a successful `/analyze` reply with status 200: the command answers "Sorry, I encountered an error: None" | report an error only for a failed request, a non-200 status or a non-null `error` | not executed | AiAssistant.ErrorKeyAlwaysPresent | AiAssistant.CodeCommandReply |
| cogs/fun.py:37-40 | `poll_message` is the result of `interaction.response.send_message(...)`, which in discord.py 2.x is not a message, and `add_reaction` is called on it | a poll with one option: the embed is posted, then `AttributeError` is raised and no reaction appears | fetch the posted message (`interaction.original_response()`) and add one reaction per option | not executed | Fun.Poll | Fun.PollWithReactions |
